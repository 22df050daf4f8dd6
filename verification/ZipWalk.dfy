/** Inspecting a ZIP archive by walking its local file headers (section 4.3.7 of the PKWARE APPNOTE). */
module ZipWalk {
  import opened Bytes
  import opened Text

  function UInt16LE(b: Bytes, o: nat): (r: nat)
    requires o + 2 <= |b|
    ensures r < 0x1_0000
  {
    var b0: int, b1: int := b[o], b[o + 1];
    b0 + b1 * 0x100
  }

  function UInt32LE(b: Bytes, o: nat): (r: nat)
    requires o + 4 <= |b|
    ensures r < 0x1_0000_0000
  {
    var b0: int, b1: int, b2: int, b3: int := b[o], b[o + 1], b[o + 2], b[o + 3];
    b0 + b1 * 0x100 + b2 * 0x1_0000 + b3 * 0x100_0000
  }

  // Names

  /** UTF-8 decoding and lower-casing, which the platform does. */
  datatype Platform = Platform(utf8: Bytes -> string, lower: string -> string)

  function LastIndexOf(s: string, c: char): (r: int)
    ensures -1 <= r < |s|
    ensures r >= 0 ==> s[r] == c
    ensures forall i :: r < i < |s| ==> s[i] != c
  {
    if s == [] then -1 else if s[|s| - 1] == c then |s| - 1 else LastIndexOf(s[..|s| - 1], c)
  }

  /** From the last dot on, unless there is none or the name starts with it. */
  function ExtensionFor(p: Platform, filename: string): string {
    var lastDot := LastIndexOf(filename, '.');
    if lastDot <= 0 then "" else p.lower(filename[lastDot..])
  }

  /**
   Every name, with its last dot if it has one: what follows that dot is the extension, unless nothing precedes it.
   */
  lemma ExtensionParts(p: Platform, stem: string, tail: string)
    requires '.' !in tail
    ensures ExtensionFor(p, tail) == ""
    ensures ExtensionFor(p, stem + ['.'] + tail) == if stem == "" then "" else p.lower(['.'] + tail)
  {
    var name := stem + ['.'] + tail;
    assert name[|stem|] == '.' && name[|stem|..] == ['.'] + tail;
    assert forall i :: |stem| < i < |name| ==> name[i] == tail[i - |stem| - 1] && name[i] in tail;
    if LastIndexOf(tail, '.') >= 0 {
      assert false;
    }
  }

  function Slashes(name: string): (r: string)
    ensures |r| == |name|
    ensures forall i :: 0 <= i < |r| ==> r[i] == if name[i] == '\\' then '/' else name[i]
  {
    seq(|name|, i requires 0 <= i < |name| => if name[i] == '\\' then '/' else name[i])
  }

  predicate Escapes(normalized: string) {
    (normalized != "" && normalized[0] == '/') || Includes(normalized, "../") || Includes(normalized, "/..")
  }

  /** A name escapes exactly when it is absolute or has two dots next to a slash. */
  lemma EscapesIff(s: string)
    ensures Escapes(s) <==>
            || (s != "" && s[0] == '/')
            || exists i :: 0 <= i < |s| - 1 && TwoDots(s, i)
                           && ((i > 0 && s[i - 1] == '/') || (i + 2 < |s| && s[i + 2] == '/'))
  {
    if Includes(s, "../") {
      var i :| 0 <= i <= |s| && OccursAt(s, "../", i);
      assert s[i..i + 3][0] == '.' && s[i..i + 3][1] == '.' && s[i..i + 3][2] == '/';
      assert TwoDots(s, i) && s[i + 2] == '/';
    }
    if Includes(s, "/..") {
      var i :| 0 <= i <= |s| && OccursAt(s, "/..", i);
      assert s[i..i + 3][0] == '/' && s[i..i + 3][1] == '.' && s[i..i + 3][2] == '.';
      assert TwoDots(s, i + 1) && s[i] == '/';
    }
    forall i | 0 <= i < |s| - 1 && TwoDots(s, i)
      ensures i > 0 && s[i - 1] == '/' ==> Includes(s, "/..")
      ensures i + 2 < |s| && s[i + 2] == '/' ==> Includes(s, "../")
    {
      if i > 0 && s[i - 1] == '/' {
        assert s[i - 1..i + 2] == "/..";
        assert OccursAt(s, "/..", i - 1);
      }
      if i + 2 < |s| && s[i + 2] == '/' {
        assert s[i..i + 3] == "../";
        assert OccursAt(s, "../", i);
      }
    }
  }

  predicate TwoDots(s: string, i: nat) {
    i + 1 < |s| && s[i] == '.' && s[i + 1] == '.'
  }

  /** Whether the characters from `i` to `j` are one whole path segment. */
  predicate IsSegment(s: string, i: nat, j: nat) {
    i <= j <= |s| && (i == 0 || s[i - 1] == '/') && (j == |s| || s[j] == '/') && forall k :: i <= k < j ==> s[k] != '/'
  }

  /** A name with a parent segment is reported, except the name that is nothing but one. */
  lemma ParentSegmentsEscape(s: string, i: nat)
    requires IsSegment(s, i, i + 2) && s[i..i + 2] == ".."
    ensures Escapes(s) <==> s != ".."
  {
    if i > 0 {
      assert s[i - 1..i + 2] == "/..";
      assert OccursAt(s, "/..", i - 1);
    } else if |s| > 2 {
      assert s[i..i + 3] == "../";
      assert OccursAt(s, "../", i);
    }
  }

  const EXECUTABLE: set<string> :=
    {".app", ".bat", ".cmd", ".com", ".dmg", ".exe", ".jar", ".js", ".mjs", ".pkg", ".ps1", ".py", ".rb", ".scr", ".sh",
     ".php", ".msi", ".vbs", ".wsf", ".xpi", ".crx"}

  const NESTED: set<string> := {".zip", ".rar", ".7z", ".tar", ".gz", ".bz2", ".xz"}

  const ENCRYPTED := ": encrypted/password-protected"
  const RATIO := ": suspicious compression ratio"
  const MALFORMED := "malformed-zip-entry"
  const TOO_MANY := "too-many-zip-entries"

  // What an archive says, and what is reported of it

  /** What the walk reads of one header. */
  datatype Entry = Entry(name: Bytes, flags: nat, compressed: nat, uncompressed: nat)

  datatype Ending = Complete | Malformed | TooMany

  datatype Parsed = Parsed(entries: seq<Entry>, ending: Ending)

  datatype Report = Report(entries: nat, executable: seq<string>, nested: seq<string>, suspicious: seq<string>)

  function Extension(p: Platform, e: Entry): string {
    ExtensionFor(p, Slashes(p.utf8(e.name)))
  }

  /**
   Everything suspicious about one entry: where it unpacks to, that it is encrypted, that it expands over a hundredfold.
   */
  function Findings(p: Platform, e: Entry): seq<string> {
    var name := p.utf8(e.name);
    (if Escapes(Slashes(name)) then [name] else [])
    + (if e.flags % 2 == 1 then [name + ENCRYPTED] else [])
    + (if e.compressed > 0 && e.uncompressed > 100 * e.compressed then [name + RATIO] else [])
  }

  function NamesWith(p: Platform, entries: seq<Entry>, extensions: set<string>): seq<string> {
    if entries == [] then []
    else
      var last := entries[|entries| - 1];
      NamesWith(p, entries[..|entries| - 1], extensions)
      + if Extension(p, last) in extensions then [p.utf8(last.name)] else []
  }

  function AllFindings(p: Platform, entries: seq<Entry>): seq<string> {
    if entries == [] then [] else AllFindings(p, entries[..|entries| - 1]) + Findings(p, entries[|entries| - 1])
  }

  function EndingFindings(ending: Ending): seq<string> {
    match ending
    case Complete => []
    case Malformed => [MALFORMED]
    case TooMany => [TOO_MANY]
  }

  function ReportOf(p: Platform, parsed: Parsed): Report {
    Report(
      |parsed.entries|, NamesWith(p, parsed.entries, EXECUTABLE), NamesWith(p, parsed.entries, NESTED),
      AllFindings(p, parsed.entries) + EndingFindings(parsed.ending))
  }

  // Parsing

  predicate HeaderAt(body: Bytes, o: nat) {
    o + 30 <= |body| && UInt32LE(body, o) == 0x0403_4b50
  }

  function DataStart(body: Bytes, o: nat): (r: nat)
    requires o + 30 <= |body|
    ensures r >= o + 30
  {
    o + 30 + UInt16LE(body, o + 26) + UInt16LE(body, o + 28)
  }

  function EntryAt(body: Bytes, o: nat): Entry
    requires o + 30 <= |body| && DataStart(body, o) <= |body|
  {
    var name := body[o + 30..o + 30 + UInt16LE(body, o + 26)];
    Entry(name, UInt16LE(body, o + 6), UInt32LE(body, o + 18), UInt32LE(body, o + 22))
  }

  /** Header after header, up to `room` of them and one more. */
  function Parse(body: Bytes, o: nat, room: nat): (r: Parsed)
    ensures r.ending == TooMany <==> |r.entries| == room + 1
    ensures |r.entries| <= room + 1
    decreases |body| - o
  {
    if !HeaderAt(body, o) then Parsed([], Complete)
    else if DataStart(body, o) > |body| then Parsed([], Malformed)
    else
      var e := EntryAt(body, o);
      if room == 0 then Parsed([e], TooMany)
      else
        var rest := Parse(body, DataStart(body, o) + e.compressed, room - 1);
        Parsed([e] + rest.entries, rest.ending)
  }

  lemma NamesAppend(p: Platform, entries: seq<Entry>, e: Entry, extensions: set<string>)
    ensures NamesWith(p, entries + [e], extensions) ==
            NamesWith(p, entries, extensions) + if Extension(p, e) in extensions then [p.utf8(e.name)] else []
  {
    assert (entries + [e])[..|entries|] == entries;
  }

  lemma FindingsAppend(p: Platform, entries: seq<Entry>, e: Entry)
    ensures AllFindings(p, entries + [e]) == AllFindings(p, entries) + Findings(p, e)
  {
    assert (entries + [e])[..|entries|] == entries;
  }

  /** The three findings of an entry, pushed one after the other. */
  lemma FindingsPushed(p: Platform, e: Entry, before: seq<string>)
    ensures var name := p.utf8(e.name);
            var s1 := if Escapes(Slashes(name)) then before + [name] else before;
            var s2 := if e.flags % 2 == 1 then s1 + [name + ENCRYPTED] else s1;
            var s3 := if e.compressed > 0 && e.uncompressed > 100 * e.compressed then s2 + [name + RATIO] else s2;
            s3 == before + Findings(p, e)
  {
    hide Escapes, Slashes, ENCRYPTED, RATIO;
  }

  lemma ReportNone(p: Platform)
    ensures ReportOf(p, Parsed([], Complete)) == Report(0, [], [], [])
  {
  }

  lemma ReportEnding(p: Platform, done: seq<Entry>, ending: Ending)
    ensures var r := ReportOf(p, Parsed(done, Complete));
            ReportOf(p, Parsed(done, ending)) == r.(suspicious := r.suspicious + EndingFindings(ending))
  {
    assert AllFindings(p, done) + [] == AllFindings(p, done);
  }

  /** What is parsed after `done`, which is already reported. */
  function After(done: seq<Entry>, rest: Parsed): Parsed {
    Parsed(done + rest.entries, rest.ending)
  }

  lemma ReportAppend(p: Platform, done: seq<Entry>, e: Entry)
    ensures var before := ReportOf(p, Parsed(done, Complete));
            var name := p.utf8(e.name);
            var ext := Extension(p, e);
            ReportOf(p, Parsed(done + [e], Complete)) ==
            Report(
              before.entries + 1,
              before.executable + (if ext in EXECUTABLE then [name] else []),
              before.nested + (if ext in NESTED then [name] else []),
              before.suspicious + Findings(p, e))
  {
    hide EXECUTABLE, NESTED, Findings, Extension, NamesWith, AllFindings;
    NamesAppend(p, done, e, EXECUTABLE);
    NamesAppend(p, done, e, NESTED);
    FindingsAppend(p, done, e);
    assert AllFindings(p, done) + [] == AllFindings(p, done);
    assert AllFindings(p, done + [e]) + [] == AllFindings(p, done + [e]);
  }

  /** Taking one more entry of the parse over to `done`. */
  lemma ParseStep(body: Bytes, done: seq<Entry>, o: nat, room: nat)
    requires HeaderAt(body, o) && DataStart(body, o) <= |body|
    ensures var e := EntryAt(body, o);
            After(done, Parse(body, o, room)) ==
            if room == 0 then Parsed(done + [e], TooMany)
            else After(done + [e], Parse(body, DataStart(body, o) + e.compressed, room - 1))
  {
    hide HeaderAt, DataStart, EntryAt;
    var e := EntryAt(body, o);
    if room > 0 {
      var rest := Parse(body, DataStart(body, o) + e.compressed, room - 1);
      assert done + ([e] + rest.entries) == done + [e] + rest.entries;
    }
  }

  /** Where the parse ends without taking an entry. */
  lemma ParseStops(body: Bytes, done: seq<Entry>, o: nat, room: int)
    ensures room >= 0 && !HeaderAt(body, o) ==> After(done, Parse(body, o, room)) == Parsed(done, Complete)
    ensures room >= 0 && HeaderAt(body, o) && DataStart(body, o) > |body| ==>
              After(done, Parse(body, o, room)) == Parsed(done, Malformed)
  {
    assert done + [] == done;
  }

  lemma ZipNests()
    ensures ".zip" in NESTED
  {
  }

  /** The checks on one entry, each pushing the name where it belongs. */
  method NoteEntry(p: Platform, e: Entry, executable: seq<string>, nested: seq<string>, suspicious: seq<string>)
    returns (executable': seq<string>, nested': seq<string>, suspicious': seq<string>)
    ensures executable' == executable + if Extension(p, e) in EXECUTABLE then [p.utf8(e.name)] else []
    ensures nested' == nested + if Extension(p, e) in NESTED then [p.utf8(e.name)] else []
    ensures suspicious' == suspicious + Findings(p, e)
  {
    hide EXECUTABLE, NESTED, Escapes, Slashes, ExtensionFor, Findings, ENCRYPTED, RATIO;
    ZipNests();
    FindingsPushed(p, e, suspicious);
    executable', nested', suspicious' := executable, nested, suspicious;
    var name := p.utf8(e.name);
    var normalizedName := Slashes(name);
    var entryExt := ExtensionFor(p, normalizedName);
    if Escapes(normalizedName) {
      suspicious' := suspicious' + [name];
    }
    if entryExt in EXECUTABLE {
      executable' := executable' + [name];
    }
    if entryExt in NESTED && entryExt != ".zip" {
      nested' := nested' + [name];
    }
    if entryExt == ".zip" {
      nested' := nested' + [name];
    }
    if e.flags % 2 == 1 {
      suspicious' := suspicious' + [name + ENCRYPTED];
    }
    if e.compressed > 0 && e.uncompressed > 100 * e.compressed {
      suspicious' := suspicious' + [name + RATIO];
    }
  }

  /** The walk reports what the archive's local file headers say. */
  method InspectZip(p: Platform, body: Bytes) returns (report: Report)
    ensures report == ReportOf(p, Parse(body, 0, 1000))
  {
    hide EXECUTABLE, NESTED, Extension, NamesWith, AllFindings, Findings, UInt16LE, UInt32LE, MALFORMED, TOO_MANY,
         ReportOf, Parse;
    var executable: seq<string>, nested: seq<string>, suspicious: seq<string> := [], [], [];
    var entries: nat, offset: nat := 0, 0;
    ghost var done: seq<Entry>, ending := [], Complete;
    ReportNone(p);
    while offset + 30 <= |body|
      invariant |done| == entries <= 1000 && ending == Complete
      invariant Report(entries, executable, nested, suspicious) == ReportOf(p, Parsed(done, Complete))
      invariant Parse(body, 0, 1000) == After(done, Parse(body, offset, 1000 - entries))
      decreases |body| - offset
    {
      ParseStops(body, done, offset, 1000 - entries);
      if UInt32LE(body, offset) != 0x0403_4b50 {
        break;
      }
      var flags := UInt16LE(body, offset + 6);
      var compressedSize := UInt32LE(body, offset + 18);
      var uncompressedSize := UInt32LE(body, offset + 22);
      var nameStart := offset + 30;
      var nameEnd := nameStart + UInt16LE(body, offset + 26);
      var dataStart := nameEnd + UInt16LE(body, offset + 28);
      if nameEnd > |body| || dataStart > |body| {
        ReportEnding(p, done, Malformed);
        suspicious := suspicious + [MALFORMED];
        ending := Malformed;
        break;
      }
      var e := Entry(body[nameStart..nameEnd], flags, compressedSize, uncompressedSize);
      ReportAppend(p, done, e);
      ParseStep(body, done, offset, 1000 - entries);
      entries := entries + 1;
      executable, nested, suspicious := NoteEntry(p, e, executable, nested, suspicious);
      done := done + [e];
      if entries > 1000 {
        ReportEnding(p, done, TooMany);
        suspicious := suspicious + [TOO_MANY];
        ending := TooMany;
        break;
      }
      offset := dataStart + compressedSize;
    }
    ParseStops(body, done, offset, 1000 - |done|);
    assert Parse(body, 0, 1000) == Parsed(done, ending);
    report := Report(entries, executable, nested, suspicious);
  }

  // Archives

  function LE16(v: nat): (r: Bytes)
    requires v < 0x1_0000
    ensures |r| == 2
  {
    [v % 0x100, v / 0x100]
  }

  function LE32(v: nat): (r: Bytes)
    requires v < 0x1_0000_0000
    ensures |r| == 4
  {
    [v % 0x100, v / 0x100 % 0x100, v / 0x1_0000 % 0x100, v / 0x100_0000]
  }

  /** Reading at an offset gives the number written there, and nothing but its bytes reads as it. */
  lemma Reads16(b: Bytes, o: nat, v: nat)
    requires o + 2 <= |b| && v < 0x1_0000
    ensures UInt16LE(b, o) == v <==> b[o..o + 2] == LE16(v)
  {
    var b0: int, b1: int := b[o], b[o + 1];
    assert v == v % 0x100 + v / 0x100 * 0x100;
    assert b[o..o + 2] == [b[o], b[o + 1]];
  }

  lemma Digit(v: int, d: int, rest: int)
    requires 0 <= v && 0 <= d < 0x100
    ensures v == d + rest * 0x100 <==> d == v % 0x100 && rest == v / 0x100
  {
  }

  lemma Digits32(v: int, b0: int, b1: int, b2: int, b3: int)
    requires 0 <= v < 0x1_0000_0000 && 0 <= b0 < 0x100 && 0 <= b1 < 0x100 && 0 <= b2 < 0x100 && 0 <= b3 < 0x100
    ensures b0 + b1 * 0x100 + b2 * 0x1_0000 + b3 * 0x100_0000 == v <==>
            b0 == v % 0x100 && b1 == v / 0x100 % 0x100 && b2 == v / 0x1_0000 % 0x100 && b3 == v / 0x100_0000
  {
    var q1, q2 := v / 0x100, v / 0x1_0000;
    Digit(v, b0, b1 + b2 * 0x100 + b3 * 0x1_0000);
    Digit(q1, b1, b2 + b3 * 0x100);
    Digit(q2, b2, b3);
    assert q2 == q1 / 0x100 && v / 0x100_0000 == q2 / 0x100;
  }

  lemma Reads32(b: Bytes, o: nat, v: nat)
    requires o + 4 <= |b| && v < 0x1_0000_0000
    ensures UInt32LE(b, o) == v <==> b[o..o + 4] == LE32(v)
  {
    Digits32(v, b[o], b[o + 1], b[o + 2], b[o + 3]);
    assert b[o..o + 4] == [b[o], b[o + 1], b[o + 2], b[o + 3]];
  }

  /** A member of an archive whose header states its sizes. */
  datatype Header = Header(
    version: nat, flags: nat, compression: nat, time: nat, date: nat, crc: nat, uncompressed: nat,
    name: Bytes, extra: Bytes, data: Bytes)

  predicate WellFormed(h: Header) {
    && h.version < 0x1_0000 && h.flags < 0x1_0000 && h.compression < 0x1_0000 && h.time < 0x1_0000 && h.date < 0x1_0000
    && h.crc < 0x1_0000_0000 && h.uncompressed < 0x1_0000_0000 && |h.data| < 0x1_0000_0000
    && |h.name| < 0x1_0000 && |h.extra| < 0x1_0000
  }

  function Front(h: Header): (r: Bytes)
    requires WellFormed(h)
    ensures |r| == 18
  {
    LE32(0x0403_4b50) + LE16(h.version) + LE16(h.flags) + LE16(h.compression) + LE16(h.time) + LE16(h.date)
    + LE32(h.crc)
  }

  function Sizes(h: Header): (r: Bytes)
    requires WellFormed(h)
    ensures |r| == 12
  {
    LE32(|h.data|) + LE32(h.uncompressed) + LE16(|h.name|) + LE16(|h.extra|)
  }

  function Serialize(h: Header): Bytes
    requires WellFormed(h)
  {
    Front(h) + Sizes(h) + h.name + h.extra + h.data
  }

  function SerializeAll(hs: seq<Header>): Bytes
    requires forall i :: 0 <= i < |hs| ==> WellFormed(hs[i])
  {
    if hs == [] then [] else Serialize(hs[0]) + SerializeAll(hs[1..])
  }

  function EntryOf(h: Header): Entry {
    Entry(h.name, h.flags, |h.data|, h.uncompressed)
  }

  function EntriesOf(hs: seq<Header>): (r: seq<Entry>)
    ensures |r| == |hs|
    ensures forall i :: 0 <= i < |hs| ==> r[i] == EntryOf(hs[i])
  {
    seq(|hs|, i requires 0 <= i < |hs| => EntryOf(hs[i]))
  }

  lemma Slices(body: Bytes, o: nat, part: Bytes, i: nat, j: nat)
    requires o + |part| <= |body| && body[o..o + |part|] == part && i <= j <= |part|
    ensures body[o + i..o + j] == part[i..j]
  {
    forall k | i <= k < j ensures body[o + k] == part[k] {
      assert body[o..o + |part|][k] == body[o + k];
    }
  }

  lemma FrontFields(h: Header)
    requires WellFormed(h)
    ensures Front(h)[0..4] == LE32(0x0403_4b50) && Front(h)[6..8] == LE16(h.flags)
  {
    hide LE16, LE32;
  }

  lemma SizesFields(h: Header)
    requires WellFormed(h)
    ensures Sizes(h)[0..4] == LE32(|h.data|) && Sizes(h)[4..8] == LE32(h.uncompressed)
    ensures Sizes(h)[8..10] == LE16(|h.name|) && Sizes(h)[10..12] == LE16(|h.extra|)
  {
    hide LE16, LE32;
  }

  lemma FrontReads(body: Bytes, o: nat, h: Header)
    requires WellFormed(h) && o + 18 <= |body| && body[o..o + 18] == Front(h)
    ensures UInt32LE(body, o) == 0x0403_4b50 && UInt16LE(body, o + 6) == h.flags
  {
    hide LE16, LE32, Front, UInt16LE, UInt32LE;
    FrontFields(h);
    Slices(body, o, Front(h), 0, 4);
    Slices(body, o, Front(h), 6, 8);
    Reads32(body, o, 0x0403_4b50);
    Reads16(body, o + 6, h.flags);
  }

  lemma SizesReads(body: Bytes, o: nat, h: Header)
    requires WellFormed(h) && o + 30 <= |body| && body[o + 18..o + 30] == Sizes(h)
    ensures UInt32LE(body, o + 18) == |h.data| && UInt32LE(body, o + 22) == h.uncompressed
    ensures UInt16LE(body, o + 26) == |h.name| && UInt16LE(body, o + 28) == |h.extra|
  {
    hide LE16, LE32, Sizes, UInt16LE, UInt32LE;
    SizesFields(h);
    Slices(body, o + 18, Sizes(h), 0, 4);
    Slices(body, o + 18, Sizes(h), 4, 8);
    Slices(body, o + 18, Sizes(h), 8, 10);
    Slices(body, o + 18, Sizes(h), 10, 12);
    Reads32(body, o + 18, |h.data|);
    Reads32(body, o + 22, h.uncompressed);
    Reads16(body, o + 26, |h.name|);
    Reads16(body, o + 28, |h.extra|);
  }

  /** A serialized member is read back, and the walk lands just behind its data. */
  lemma ReadsMember(body: Bytes, o: nat, h: Header, tail: Bytes)
    requires WellFormed(h) && o <= |body| && body[o..] == Serialize(h) + tail
    ensures HeaderAt(body, o) && DataStart(body, o) <= |body| && EntryAt(body, o) == EntryOf(h)
    ensures DataStart(body, o) + |h.data| <= |body| && body[DataStart(body, o) + |h.data|..] == tail
  {
    hide Front, Sizes, UInt16LE, UInt32LE;
    var rest := body[o..];
    var n := 30 + |h.name| + |h.extra|;
    assert |rest| == n + |h.data| + |tail|;
    assert rest[0..18] == Front(h) && rest[18..30] == Sizes(h);
    assert rest[30..30 + |h.name|] == h.name && rest[n + |h.data|..] == tail;
    assert body[o..o + 18] == rest[0..18] && body[o + 18..o + 30] == rest[18..30];
    assert body[o + 30..o + 30 + |h.name|] == rest[30..30 + |h.name|];
    assert body[o + n + |h.data|..] == rest[n + |h.data|..];
    FrontReads(body, o, h);
    SizesReads(body, o, h);
  }

  /** The walk goes over serialized members to whatever it makes of what follows them. */
  lemma {:induction false} ParsesFrom(body: Bytes, o: nat, hs: seq<Header>, tail: Bytes, room: nat, rest: Parsed)
    requires forall i :: 0 <= i < |hs| ==> WellFormed(hs[i])
    requires o <= |body| && body[o..] == SerializeAll(hs) + tail
    requires |hs| <= room ==> Parse(body, |body| - |tail|, room - |hs|) == rest
    ensures Parse(body, o, room) ==
            if |hs| <= room then Parsed(EntriesOf(hs) + rest.entries, rest.ending)
            else Parsed(EntriesOf(hs[..room + 1]), TooMany)
    decreases |hs|
  {
    hide Serialize, UInt16LE, UInt32LE, DataStart, EntryAt, EntriesOf;
    if hs == [] {
      assert body[o..] == tail && EntriesOf(hs) + rest.entries == rest.entries;
    } else {
      var h, later := hs[0], SerializeAll(hs[1..]) + tail;
      assert body[o..] == Serialize(h) + later;
      ReadsMember(body, o, h, later);
      EntriesFrom(hs, room, rest.entries);
      if room > 0 {
        ParsesFrom(body, DataStart(body, o) + |h.data|, hs[1..], tail, room - 1, rest);
      }
    }
  }

  lemma EntriesFrom(hs: seq<Header>, room: nat, rest: seq<Entry>)
    requires hs != []
    ensures EntriesOf(hs) + rest == [EntryOf(hs[0])] + (EntriesOf(hs[1..]) + rest)
    ensures room < |hs| ==> EntriesOf(hs[..room + 1]) == [EntryOf(hs[0])] + EntriesOf(hs[1..][..room])
    ensures EntriesOf(hs[..1]) == [EntryOf(hs[0])]
  {
    hide EntryOf;
    assert EntriesOf(hs) == [EntryOf(hs[0])] + EntriesOf(hs[1..]);
  }

  lemma NoHeader(body: Bytes, o: nat, tail: Bytes)
    requires o <= |body| && body[o..] == tail && !HeaderAt(tail, 0)
    ensures !HeaderAt(body, o)
  {
    if o + 30 <= |body| {
      assert forall i :: 0 <= i < 4 ==> body[o + i] == tail[i];
    }
  }

  /**
   On an archive of up to a thousand members, followed by anything that is no header, the report is about exactly those
   members; on a larger one it is about the first 1001 and says so.
   */
  lemma InspectsArchive(p: Platform, hs: seq<Header>, tail: Bytes)
    requires forall i :: 0 <= i < |hs| ==> WellFormed(hs[i])
    requires !HeaderAt(tail, 0)
    ensures ReportOf(p, Parse(SerializeAll(hs) + tail, 0, 1000)) ==
            if |hs| <= 1000 then ReportOf(p, Parsed(EntriesOf(hs), Complete))
                else ReportOf(p, Parsed(EntriesOf(hs[..1001]), TooMany))
    ensures var report := ReportOf(p, Parse(SerializeAll(hs) + tail, 0, 1000));
            var seen := EntriesOf(if |hs| <= 1000 then hs else hs[..1001]);
            && report.entries == |seen| && report.executable == NamesWith(p, seen, EXECUTABLE)
            && report.nested == NamesWith(p, seen, NESTED)
            && report.suspicious == AllFindings(p, seen) + if |hs| > 1000 then ["too-many-zip-entries"] else []
  {
    hide Serialize, UInt16LE, UInt32LE, DataStart, EntryAt, WellFormed, NamesWith, AllFindings;
    var body := SerializeAll(hs) + tail;
    assert body[0..] == body && body[|body| - |tail|..] == tail;
    NoHeader(body, |body| - |tail|, tail);
    assert EntriesOf(hs) + [] == EntriesOf(hs);
    ParsesFrom(body, 0, hs, tail, 1000, Parsed([], Complete));
  }

  /** What the walk makes of a member cut off somewhere at the end of the file. */
  lemma ReadsCut(body: Bytes, o: nat, h: Header, cut: nat, room: nat)
    requires WellFormed(h) && cut <= |Serialize(h)| && room > 0
    requires o <= |body| && body[o..] == Serialize(h)[..cut]
    ensures Parse(body, o, room) ==
            if cut < 30 then Parsed([], Complete)
            else if cut < 30 + |h.name| + |h.extra| then Parsed([], Malformed)
            else Parsed([EntryOf(h)], Complete)
  {
    hide Front, Sizes, UInt16LE, UInt32LE;
    var rest, whole := body[o..], Serialize(h);
    if cut >= 30 {
      assert whole[0..18] == Front(h) && whole[18..30] == Sizes(h);
      assert body[o..o + 18] == rest[0..18] == whole[0..18] && body[o + 18..o + 30] == rest[18..30] == whole[18..30];
      FrontReads(body, o, h);
      SizesReads(body, o, h);
      if cut >= 30 + |h.name| + |h.extra| {
        assert whole[30..30 + |h.name|] == h.name;
        assert body[o + 30..o + 30 + |h.name|] == rest[30..30 + |h.name|] == whole[30..30 + |h.name|];
        assert EntryAt(body, o) == EntryOf(h);
        assert Parse(body, DataStart(body, o) + |h.data|, room - 1) == Parsed([], Complete);
      }
    }
  }

  /**
   An archive cut off inside a member is reported as malformed exactly when the cut falls behind the fixed part of that
   member's header and before its data. An earlier cut hides the member, and a later one, through the data, is not
   noticed: the member is reported as if it were whole.
   */
  lemma CutArchive(p: Platform, hs: seq<Header>, h: Header, cut: nat)
    requires forall i :: 0 <= i < |hs| ==> WellFormed(hs[i])
    requires WellFormed(h) && cut < |Serialize(h)| && |hs| < 1000
    ensures var report := ReportOf(p, Parse(SerializeAll(hs) + Serialize(h)[..cut], 0, 1000));
            var data := 30 + |h.name| + |h.extra|;
            var seen := EntriesOf(if cut < data then hs else hs + [h]);
            && report.entries == |seen| && report.executable == NamesWith(p, seen, EXECUTABLE)
            && report.nested == NamesWith(p, seen, NESTED)
            && report.suspicious ==
               AllFindings(p, seen) + if 30 <= cut < data then ["malformed-zip-entry"] else []
  {
    hide Serialize, UInt16LE, UInt32LE, DataStart, EntryAt, WellFormed, Parse, NamesWith, AllFindings;
    var tail := Serialize(h)[..cut];
    var body := SerializeAll(hs) + tail;
    var o := |body| - |tail|;
    assert body[0..] == body && body[o..] == tail;
    ReadsCut(body, o, h, cut, 1000 - |hs|);
    ParsesFrom(body, 0, hs, tail, 1000, Parse(body, o, 1000 - |hs|));
    assert EntriesOf(hs) + [] == EntriesOf(hs) && EntriesOf(hs + [h]) == EntriesOf(hs) + [EntryOf(h)];
  }

  /**
   A member whose local header leaves the sizes zero, to give them behind its data (general-purpose bit 3), ends the
   walk unless its data starts like a header: it is reported as empty, and nothing of the later members is.
   */
  lemma StreamedMemberEndsWalk(p: Platform, hs: seq<Header>, h: Header, streamed: Bytes, later: seq<Header>)
    requires forall i :: 0 <= i < |hs| ==> WellFormed(hs[i])
    requires forall i :: 0 <= i < |later| ==> WellFormed(later[i])
    requires WellFormed(h) && h.data == [] && h.uncompressed == 0 && h.flags / 8 % 2 == 1 && |hs| < 1000
    requires !HeaderAt(streamed + SerializeAll(later), 0)
    ensures ReportOf(p, Parse(SerializeAll(hs) + Serialize(h) + streamed + SerializeAll(later), 0, 1000)) ==
            ReportOf(p, Parsed(EntriesOf(hs) + [Entry(h.name, h.flags, 0, 0)], Complete))
  {
    hide Parse, ReportOf, Serialize, WellFormed, HeaderAt;
    var tail := streamed + SerializeAll(later);
    SerializeAppend(hs, h);
    assert SerializeAll(hs) + Serialize(h) + streamed + SerializeAll(later) == SerializeAll(hs + [h]) + tail;
    assert EntriesOf(hs + [h]) == EntriesOf(hs) + [EntryOf(h)];
    InspectsArchive(p, hs + [h], tail);
  }

  lemma {:induction false} SerializeAppend(hs: seq<Header>, h: Header)
    requires WellFormed(h) && forall i :: 0 <= i < |hs| ==> WellFormed(hs[i])
    ensures forall i :: 0 <= i < |hs + [h]| ==> WellFormed((hs + [h])[i])
    ensures SerializeAll(hs + [h]) == SerializeAll(hs) + Serialize(h)
  {
    hide Serialize, WellFormed;
    if hs == [] {
      assert [h][1..] == [] && SerializeAll([h]) == Serialize(h) + SerializeAll([]);
    } else {
      SerializeAppend(hs[1..], h);
      assert (hs + [h])[1..] == hs[1..] + [h];
    }
  }

  /** A name is reported for one of the extensions exactly when some member has it. */
  lemma {:induction false} NamesWithExactly(p: Platform, entries: seq<Entry>, extensions: set<string>, name: string)
    ensures name in NamesWith(p, entries, extensions) <==>
            exists i :: 0 <= i < |entries| && p.utf8(entries[i].name) == name && Extension(p, entries[i]) in extensions
  {
    hide Extension;
    if entries != [] {
      var n := |entries| - 1;
      NamesWithExactly(p, entries[..n], extensions, name);
      assert entries == entries[..n] + [entries[n]];
    }
  }

  /**
   An archive with nothing suspicious is one in which no member escapes, is encrypted or expands over a hundredfold.
   */
  lemma {:induction false} NothingSuspicious(p: Platform, entries: seq<Entry>)
    ensures AllFindings(p, entries) == [] <==>
            forall i :: 0 <= i < |entries| ==>
              var e := entries[i];
              && !Escapes(Slashes(p.utf8(e.name))) && e.flags % 2 == 0
              && (e.compressed == 0 || e.uncompressed <= 100 * e.compressed)
  {
    hide Escapes, Slashes, ENCRYPTED, RATIO;
    if entries != [] {
      var n := |entries| - 1;
      NothingSuspicious(p, entries[..n]);
      assert entries == entries[..n] + [entries[n]];
      assert forall i :: 0 <= i < n ==> entries[i] == entries[..n][i];
    }
  }
}
