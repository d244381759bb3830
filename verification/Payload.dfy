// The ATTLOG payload parser: one record per well-formed line.

module Text {
  // str.isspace, as used by strip() and split().
  predicate IsSpace(c: char) {
    || '\t' <= c <= '\r'
    || '\U{1c}' <= c <= ' '
    || c == '\U{85}' || c == '\U{a0}' || c == '\U{1680}'
    || '\U{2000}' <= c <= '\U{200a}'
    || c == '\U{2028}' || c == '\U{2029}' || c == '\U{202f}' || c == '\U{205f}' || c == '\U{3000}'
  }

  // Line boundaries of splitlines().
  predicate IsBreak(c: char): (b: bool)
    ensures b ==> IsSpace(c)
  {
    || '\n' <= c <= '\r'
    || '\U{1c}' <= c <= '\U{1e}'
    || c == '\U{85}' || c == '\U{2028}' || c == '\U{2029}'
  }

  predicate IsDigit(c: char) {
    '0' <= c <= '9'
  }

  function StripLeft(s: string): (r: string)
    ensures |r| <= |s|
  {
    if s != [] && IsSpace(s[0]) then StripLeft(s[1..]) else s
  }

  function StripRight(s: string): (r: string)
    ensures |r| <= |s|
  {
    if s != [] && IsSpace(s[|s| - 1]) then StripRight(s[..|s| - 1]) else s
  }

  function Strip(s: string): string {
    StripRight(StripLeft(s))
  }

  predicate Blank(s: string) {
    forall i :: 0 <= i < |s| ==> IsSpace(s[i])
  }

  lemma {:induction false} BlankStrips(s: string)
    requires Blank(s)
    ensures StripLeft(s) == "" && Strip(s) == ""
  {
    if s != [] {
      BlankStrips(s[1..]);
    }
  }

  // A text strips to nothing exactly when it is all whitespace.
  lemma StripsToNothingExactly(s: string)
    ensures Strip(s) == "" <==> Blank(s)
  {
    if Blank(s) {
      BlankStrips(s);
    } else {
      LeftStops(s);
      RightStops(StripLeft(s));
    }
  }

  lemma {:induction false} LeftStops(s: string)
    requires !Blank(s)
    ensures StripLeft(s) != "" && !IsSpace(StripLeft(s)[0])
  {
    if IsSpace(s[0]) {
      var i :| 0 <= i < |s| && !IsSpace(s[i]);
      assert s[1..][i - 1] == s[i];
      LeftStops(s[1..]);
    }
  }

  lemma {:induction false} RightStops(s: string)
    requires s != "" && !IsSpace(s[0])
    ensures StripRight(s) != ""
  {
    if IsSpace(s[|s| - 1]) {
      RightStops(s[..|s| - 1]);
    }
  }

  lemma {:induction false} StripLeftSpace(c: char, s: string)
    requires IsSpace(c)
    ensures Strip([c] + s) == Strip(s)
  {
    assert ([c] + s)[1..] == s;
  }

  lemma {:induction false} StripLeftSnoc(s: string, c: char)
    ensures StripLeft(s + [c]) == if Blank(s) && IsSpace(c) then "" else if Blank(s) then [c] else StripLeft(s) + [c]
  {
    if s == [] {
      assert s + [c] == [c];
    } else if IsSpace(s[0]) {
      StripLeftSnoc(s[1..], c);
      assert (s + [c])[1..] == s[1..] + [c];
      assert Blank(s) <==> Blank(s[1..]) by {
        if Blank(s[1..]) {
          forall i | 0 <= i < |s|
            ensures IsSpace(s[i])
          {
            if i > 0 { assert s[i] == s[1..][i - 1]; }
          }
        }
      }
    } else {
      assert (s + [c])[0] == s[0];
    }
  }

  lemma StripRightSpace(s: string, c: char)
    requires IsSpace(c)
    ensures Strip(s + [c]) == Strip(s)
  {
    StripLeftSnoc(s, c);
    if Blank(s) {
      BlankStrips(s);
    } else {
      assert (StripLeft(s) + [c])[..|StripLeft(s)|] == StripLeft(s);
    }
  }

  // Nothing left to strip.
  lemma StripTight(s: string)
    requires s != [] && !IsSpace(s[0]) && !IsSpace(s[|s| - 1])
    ensures Strip(s) == s
  {
  }
}

// Reading a text line by line: strip, splitlines, and a per-line reader that sees
// stripped lines and finds nothing in an empty one.
module TextLines {
  import opened Text

  function FirstBreak(s: string): (i: nat)
    ensures i <= |s|
    ensures i < |s| ==> IsBreak(s[i])
    ensures forall j :: 0 <= j < i ==> !IsBreak(s[j])
  {
    if s == [] || IsBreak(s[0]) then 0 else FirstBreak(s[1..]) + 1
  }

  // Where the rest of the text starts after the boundary at i.
  function NextLine(s: string, i: nat): nat
    requires i < |s|
  {
    if s[i] == '\r' && i + 1 < |s| && s[i + 1] == '\n' then i + 2 else i + 1
  }

  // splitlines(): CR LF is one boundary, a final boundary opens no line.
  function SplitLines(s: string): seq<string>
    decreases |s|
  {
    var i := FirstBreak(s);
    if s == [] then []
    else if i == |s| then [s]
    else [s[..i]] + SplitLines(s[NextLine(s, i)..])
  }

  // The records of all lines, in order.
  function Each<T>(read: string -> seq<T>, lines: seq<string>): seq<T> {
    if lines == [] then [] else read(Strip(lines[0])) + Each(read, lines[1..])
  }

  lemma EachTakes<T>(read: string -> seq<T>, lines: seq<string>, i: nat)
    requires i < |lines|
    ensures Each(read, lines[i..]) == read(Strip(lines[i])) + Each(read, lines[i + 1..])
  {
    assert lines[i..][1..] == lines[i + 1..];
  }

  // body.strip().splitlines(), each line stripped and read.
  function ReadText<T>(read: string -> seq<T>, body: string): seq<T> {
    Each(read, SplitLines(Strip(body)))
  }

  // --- Reading is a homomorphism on newline concatenation ---

  // Reference: read characters one at a time, every boundary character ends a line.
  function Scan<T>(read: string -> seq<T>, s: string, piece: string): seq<T>
    decreases |s|
  {
    if s == [] then read(Strip(piece))
    else if IsBreak(s[0]) then read(Strip(piece)) + Scan(read, s[1..], "")
    else Scan(read, s[1..], piece + [s[0]])
  }

  lemma {:induction false} ScanLastLine<T>(read: string -> seq<T>, s: string, piece: string)
    requires FirstBreak(s) == |s|
    ensures Scan(read, s, piece) == read(Strip(piece + s))
    decreases |s|
  {
    if s == [] {
      assert piece + s == piece;
    } else {
      ScanLastLine(read, s[1..], piece + [s[0]]);
      assert piece + [s[0]] + s[1..] == piece + s;
    }
  }

  lemma {:induction false} ScanPrefix<T>(read: string -> seq<T>, s: string, piece: string)
    requires FirstBreak(s) < |s|
    ensures Scan(read, s, piece) == read(Strip(piece + s[..FirstBreak(s)])) + Scan(read, s[FirstBreak(s) + 1..], "")
    decreases |s|
  {
    var i := FirstBreak(s);
    if i == 0 {
      assert piece + s[..0] == piece;
    } else {
      ScanPrefix(read, s[1..], piece + [s[0]]);
      assert piece + [s[0]] + s[1..][..i - 1] == piece + s[..i];
      assert s[1..][i..] == s[i + 1..];
    }
  }

  lemma BreakAddsNothing<T>(read: string -> seq<T>, s: string)
    requires read("") == []
    requires s != [] && IsBreak(s[0])
    ensures Scan(read, s, "") == Scan(read, s[1..], "")
  {
  }

  lemma ScanNextLine<T>(read: string -> seq<T>, s: string)
    requires read("") == []
    requires FirstBreak(s) < |s|
    ensures Scan(read, s, "") == read(Strip(s[..FirstBreak(s)])) + Scan(read, s[NextLine(s, FirstBreak(s))..], "")
  {
    var i := FirstBreak(s);
    ScanPrefix(read, s, "");
    assert "" + s[..i] == s[..i];
    if NextLine(s, i) == i + 2 {
      BreakAddsNothing(read, s[i + 1..]);
      assert s[i + 1..][1..] == s[i + 2..];
    }
  }

  lemma {:induction false} ScanIsSplit<T>(read: string -> seq<T>, s: string)
    requires read("") == []
    ensures Scan(read, s, "") == Each(read, SplitLines(s))
    decreases |s|
  {
    var i := FirstBreak(s);
    if s == [] {
      assert Strip("") == "";
    } else if i == |s| {
      ScanLastLine(read, s, "");
      assert "" + s == s;
    } else {
      ScanNextLine(read, s);
      var rest := s[NextLine(s, i)..];
      ScanIsSplit(read, rest);
      assert SplitLines(s) == [s[..i]] + SplitLines(rest);
      assert ([s[..i]] + SplitLines(rest))[1..] == SplitLines(rest);
    }
  }

  lemma LineIgnoresEnds<T>(read: string -> seq<T>, piece: string, c: char)
    requires IsSpace(c)
    ensures read(Strip([c] + piece)) == read(Strip(piece)) && read(Strip(piece + [c])) == read(Strip(piece))
  {
    StripLeftSpace(c, piece);
    StripRightSpace(piece, c);
  }

  // A leading space of the line being read does not matter.
  lemma {:induction false} ScanDropsLeading<T>(read: string -> seq<T>, s: string, piece: string, c: char)
    requires IsSpace(c)
    ensures Scan(read, s, [c] + piece) == Scan(read, s, piece)
    decreases |s|
  {
    LineIgnoresEnds(read, piece, c);
    if s != [] && !IsBreak(s[0]) {
      ScanDropsLeading(read, s[1..], piece + [s[0]], c);
      assert [c] + piece + [s[0]] == [c] + (piece + [s[0]]);
    }
  }

  lemma {:induction false} ScanDropsTrailing<T>(read: string -> seq<T>, s: string, piece: string, c: char)
    requires read("") == []
    requires IsSpace(c)
    ensures Scan(read, s + [c], piece) == Scan(read, s, piece)
    decreases |s|
  {
    if s == [] {
      assert s + [c] == [c] && [c][1..] == [];
      LineIgnoresEnds(read, piece, c);
      if !IsBreak(c) {
        assert Scan(read, [], piece + [c]) == read(Strip(piece + [c]));
      }
    } else {
      assert (s + [c])[0] == s[0] && (s + [c])[1..] == s[1..] + [c];
      ScanDropsTrailing(read, s[1..], if IsBreak(s[0]) then "" else piece + [s[0]], c);
    }
  }

  lemma {:induction false} ScanStripLeft<T>(read: string -> seq<T>, s: string)
    requires read("") == []
    ensures Scan(read, StripLeft(s), "") == Scan(read, s, "")
  {
    if s != [] && IsSpace(s[0]) {
      ScanStripLeft(read, s[1..]);
      if !IsBreak(s[0]) {
        ScanDropsLeading(read, s[1..], "", s[0]);
        assert "" + [s[0]] == [s[0]] + "";
      }
    }
  }

  lemma {:induction false} ScanStripRight<T>(read: string -> seq<T>, s: string)
    requires read("") == []
    ensures Scan(read, StripRight(s), "") == Scan(read, s, "")
  {
    if s != [] && IsSpace(s[|s| - 1]) {
      ScanStripRight(read, s[..|s| - 1]);
      ScanDropsTrailing(read, s[..|s| - 1], "", s[|s| - 1]);
      assert s == s[..|s| - 1] + [s[|s| - 1]];
    }
  }

  lemma TextIsScan<T>(read: string -> seq<T>, body: string)
    requires read("") == []
    ensures ReadText(read, body) == Scan(read, body, "")
  {
    ScanIsSplit(read, Strip(body));
    ScanStripLeft(read, body);
    ScanStripRight(read, StripLeft(body));
  }

  lemma {:induction false} ScanSplits<T>(read: string -> seq<T>, a: string, b: string, piece: string, c: char)
    requires IsBreak(c)
    ensures Scan(read, a + [c] + b, piece) == Scan(read, a, piece) + Scan(read, b, "")
    decreases |a|
  {
    var s := a + [c] + b;
    if a == [] {
      assert s[0] == c && s[1..] == b;
    } else {
      assert s[0] == a[0] && s[1..] == a[1..] + [c] + b;
      ScanSplits(read, a[1..], b, if IsBreak(a[0]) then "" else piece + [a[0]], c);
    }
  }

  // Two payloads joined by a line boundary parse to the records of the first
  // followed by those of the second.
  lemma ReadConcatenation<T>(read: string -> seq<T>, a: string, b: string, c: char)
    requires read("") == []
    requires IsBreak(c)
    ensures ReadText(read, a + [c] + b) == ReadText(read, a) + ReadText(read, b)
  {
    TextIsScan(read, a);
    TextIsScan(read, b);
    TextIsScan(read, a + [c] + b);
    ScanSplits(read, a, b, "", c);
  }
}

module Payload {
  import opened Text
  import opened TextLines
  import opened AttendanceStore

  // --- Splitting a line ---

  // split("\t")
  function TabPieces(s: string, piece: string): seq<string>
    decreases |s|
  {
    if s == [] then [piece]
    else if s[0] == '\t' then [piece] + TabPieces(s[1..], "")
    else TabPieces(s[1..], piece + [s[0]])
  }

  // [p.strip() for p in pieces if p.strip()]
  function KeepParts(pieces: seq<string>): seq<string> {
    if pieces == [] then []
    else (if Strip(pieces[0]) == "" then [] else [Strip(pieces[0])]) + KeepParts(pieces[1..])
  }

  function TabParts(s: string): seq<string> {
    KeepParts(TabPieces(s, ""))
  }

  // split(): the pieces between runs of whitespace.
  function SpaceParts(s: string, piece: string): seq<string>
    decreases |s|
  {
    if s == [] then (if piece == "" then [] else [piece])
    else if IsSpace(s[0]) then (if piece == "" then [] else [piece]) + SpaceParts(s[1..], "")
    else SpaceParts(s[1..], piece + [s[0]])
  }

  // --- One line ---

  function PartOr(parts: seq<string>, i: nat, default: string): string {
    if i < |parts| then parts[i] else default
  }

  function FromParts(pin: string, time: string, rest: seq<string>): seq<Record> {
    if pin == "" || time == "" then []
    else [Record(pin, time, PartOr(rest, 0, "0"), PartOr(rest, 1, "1"), PartOr(rest, 2, "0"))]
  }

  // Zero or one record from a stripped line.
  function ParseStripped(line: string): seq<Record> {
    if line == "" || line[0] == '#' then []
    else if '\t' in line then
      var parts := TabParts(line);
      if |parts| >= 2 then FromParts(parts[0], parts[1], parts[2..]) else []
    else
      var parts := SpaceParts(line, "");
      if |parts| >= 3 && '-' in parts[1] && ':' in parts[2] then FromParts(parts[0], parts[1] + " " + parts[2], parts[3..])
      else if |parts| >= 2 then FromParts(parts[0], parts[1], parts[2..])
      else []
  }

  // parse_attendance_payload
  function ParsePayload(body: string): seq<Record> {
    ReadText(ParseStripped, body)
  }

  // The loop body: what one raw line contributes.
  method ReadLine(raw: string) returns (records: seq<Record>)
    ensures records == ParseStripped(Strip(raw))
  {
    var line := Strip(raw);
    if line == "" || line[0] == '#' {
      return [];
    }
    var pin, time, status, verify, work := "", "", "0", "1", "0";
    if '\t' in line {
      var parts := TabParts(line);
      if |parts| >= 2 {
        pin, time := parts[0], parts[1];
        if |parts| >= 3 { status := parts[2]; }
        if |parts| >= 4 { verify := parts[3]; }
        if |parts| >= 5 { work := parts[4]; }
      }
    } else {
      var parts := SpaceParts(line, "");
      if |parts| >= 3 && '-' in parts[1] && ':' in parts[2] {
        pin, time := parts[0], parts[1] + " " + parts[2];
        if |parts| >= 4 { status := parts[3]; }
        if |parts| >= 5 { verify := parts[4]; }
        if |parts| >= 6 { work := parts[5]; }
      } else if |parts| >= 2 {
        pin, time := parts[0], parts[1];
        if |parts| >= 3 { status := parts[2]; }
        if |parts| >= 4 { verify := parts[3]; }
        if |parts| >= 5 { work := parts[4]; }
      }
    }
    records := if pin != "" && time != "" then [Record(pin, time, status, verify, work)] else [];
  }

  method ParseAttendancePayload(body: string) returns (records: seq<Record>)
    ensures records == ParsePayload(body)
  {
    var lines := SplitLines(Strip(body));
    records := [];
    var i := 0;
    while i < |lines|
      invariant i <= |lines|
      invariant records + Each(ParseStripped, lines[i..]) == Each(ParseStripped, lines)
    {
      var r := ReadLine(lines[i]);
      EachTakes(ParseStripped, lines, i);
      records := records + r;
      i := i + 1;
    }
  }

  // Two payloads joined by a line boundary parse to the records of the first
  // followed by those of the second.
  lemma ParseConcatenation(a: string, b: string, c: char)
    requires IsBreak(c)
    ensures ParsePayload(a + [c] + b) == ParsePayload(a) + ParsePayload(b)
  {
    ReadConcatenation(ParseStripped, a, b, c);
  }
}

// The documented line formats read back to the fields they were written from.
module PayloadRoundTrip {
  import opened Text
  import opened TextLines
  import opened AttendanceStore
  import opened Payload

  // A field a device can send: not empty, no outer whitespace, no tab or line
  // boundary inside.
  ghost predicate Clean(f: string) {
    && f != "" && !IsSpace(f[0]) && !IsSpace(f[|f| - 1])
    && forall i :: 0 <= i < |f| ==> f[i] != '\t' && !IsBreak(f[i])
  }

  // A field without any whitespace.
  ghost predicate Word(f: string) {
    f != "" && forall i :: 0 <= i < |f| ==> !IsSpace(f[i])
  }

  function Join(fs: seq<string>, sep: char): string {
    if fs == [] then "" else if |fs| == 1 then fs[0] else fs[0] + [sep] + Join(fs[1..], sep)
  }

  lemma {:induction false} TabPiecesStep(f: string, rest: string, piece: string)
    requires forall i :: 0 <= i < |f| ==> f[i] != '\t'
    ensures TabPieces(f, piece) == [piece + f]
    ensures TabPieces(f + ['\t'] + rest, piece) == [piece + f] + TabPieces(rest, "")
    decreases |f|
  {
    var s := f + ['\t'] + rest;
    if f == [] {
      assert piece + f == piece && s[0] == '\t' && s[1..] == rest;
    } else {
      TabPiecesStep(f[1..], rest, piece + [f[0]]);
      assert piece + [f[0]] + f[1..] == piece + f;
      assert s[0] == f[0] && s[1..] == f[1..] + ['\t'] + rest;
    }
  }

  lemma {:induction false} SpacePartsStep(f: string, rest: string, piece: string)
    requires forall i :: 0 <= i < |f| ==> !IsSpace(f[i])
    requires piece + f != ""
    ensures SpaceParts(f, piece) == [piece + f]
    ensures SpaceParts(f + [' '] + rest, piece) == [piece + f] + SpaceParts(rest, "")
    decreases |f|
  {
    var s := f + [' '] + rest;
    if f == [] {
      assert piece + f == piece && s[0] == ' ' && s[1..] == rest;
    } else {
      assert piece + [f[0]] + f[1..] == piece + f;
      SpacePartsStep(f[1..], rest, piece + [f[0]]);
      assert s[0] == f[0] && s[1..] == f[1..] + [' '] + rest;
    }
  }

  lemma {:induction false} TabPiecesJoin(fs: seq<string>)
    requires fs != [] && forall i :: 0 <= i < |fs| ==> Clean(fs[i])
    ensures TabPieces(Join(fs, '\t'), "") == fs
  {
    hide IsSpace, TabPieces;
    var f := fs[0];
    assert "" + f == f;
    if |fs| == 1 {
      TabPiecesStep(f, "", "");
    } else {
      TabPiecesStep(f, Join(fs[1..], '\t'), "");
      TabPiecesJoin(fs[1..]);
      assert [f] + fs[1..] == fs;
    }
  }

  lemma {:induction false} KeepClean(fs: seq<string>)
    requires forall i :: 0 <= i < |fs| ==> Clean(fs[i])
    ensures KeepParts(fs) == fs
  {
    if fs != [] {
      StripTight(fs[0]);
      KeepClean(fs[1..]);
      assert [fs[0]] + fs[1..] == fs;
    }
  }

  lemma TabPartsJoin(fs: seq<string>)
    requires fs != [] && forall i :: 0 <= i < |fs| ==> Clean(fs[i])
    ensures TabParts(Join(fs, '\t')) == fs
  {
    TabPiecesJoin(fs);
    KeepClean(fs);
  }

  lemma {:induction false} SpacePartsJoin(fs: seq<string>)
    requires fs != [] && forall i :: 0 <= i < |fs| ==> Word(fs[i])
    ensures SpaceParts(Join(fs, ' '), "") == fs
  {
    var f := fs[0];
    assert "" + f == f;
    if |fs| == 1 {
      SpacePartsStep(f, "", "");
    } else {
      SpacePartsStep(f, Join(fs[1..], ' '), "");
      SpacePartsJoin(fs[1..]);
      assert [f] + fs[1..] == fs;
    }
  }

  // A joined line starts like its first field, ends like its last, and has no
  // line boundary.
  lemma {:induction false} JoinShape(fs: seq<string>, sep: char)
    requires fs != [] && !IsBreak(sep)
    requires forall i :: 0 <= i < |fs| ==> Clean(fs[i])
    ensures var line := Join(fs, sep);
            && line != "" && fs[0] != "" && line[0] == fs[0][0] && !IsSpace(line[|line| - 1])
            && (forall i :: 0 <= i < |line| ==> !IsBreak(line[i]))
            && (|fs| >= 2 ==> sep in line)
  {
    if |fs| > 1 {
      JoinShape(fs[1..], sep);
      var line := Join(fs, sep);
      assert line[|fs[0]|] == sep;
      assert line[|line| - 1] == Join(fs[1..], sep)[|Join(fs[1..], sep)| - 1];
    }
  }

  lemma {:induction false} NoTabInWords(fs: seq<string>)
    requires forall i :: 0 <= i < |fs| ==> Word(fs[i])
    ensures '\t' !in Join(fs, ' ')
  {
    if |fs| > 1 {
      NoTabInWords(fs[1..]);
    }
  }

  lemma OneLine(line: string)
    requires line != "" && !IsSpace(line[0]) && !IsSpace(line[|line| - 1])
    requires forall i :: 0 <= i < |line| ==> !IsBreak(line[i])
    ensures ParsePayload(line) == ParseStripped(line)
  {
    StripTight(line);
    assert FirstBreak(line) == |line|;
    assert SplitLines(line) == [line];
    assert Each(ParseStripped, [line]) == ParseStripped(Strip(line)) + Each(ParseStripped, [line][1..]);
  }

  // pin TAB timestamp TAB status TAB verify TAB work code, then any further fields.
  function TabLine(r: Record, extra: seq<string>): string {
    Join([r.pin, r.time, r.status, r.verify, r.work] + extra, '\t')
  }

  lemma TabLineRoundTrip(r: Record, extra: seq<string>)
    requires Clean(r.pin) && Clean(r.time) && Clean(r.status) && Clean(r.verify) && Clean(r.work) && r.pin[0] != '#'
    requires forall i :: 0 <= i < |extra| ==> Clean(extra[i])
    ensures ParsePayload(TabLine(r, extra)) == [r]
  {
    var fs := [r.pin, r.time, r.status, r.verify, r.work] + extra;
    JoinShape(fs, '\t');
    TabPartsJoin(fs);
    OneLine(TabLine(r, extra));
    assert fs[2..][0] == r.status && fs[2..][1] == r.verify && fs[2..][2] == r.work;
  }

  // The same with spaces; date and clock are two words.
  lemma SpaceLineRoundTrip(pin: string, date: string, clock: string, status: string, verify: string, work: string)
    requires Word(pin) && Word(date) && Word(clock) && Word(status) && Word(verify) && Word(work)
    requires pin[0] != '#' && '-' in date && ':' in clock
    ensures ParsePayload(Join([pin, date, clock, status, verify, work], ' '))
         == [Record(pin, date + " " + clock, status, verify, work)]
  {
    var fs := [pin, date, clock, status, verify, work];
    JoinShape(fs, ' ');
    SpacePartsJoin(fs);
    NoTabInWords(fs);
    OneLine(Join(fs, ' '));
    assert fs[3..] == [status, verify, work];
  }

  // Missing trailing fields take the defaults.
  lemma ShortLineDefaults(pin: string, time: string)
    requires Clean(pin) && Clean(time) && pin[0] != '#'
    ensures ParsePayload(Join([pin, time], '\t')) == [Record(pin, time, "0", "1", "0")]
  {
    var fs := [pin, time];
    JoinShape(fs, '\t');
    TabPartsJoin(fs);
    OneLine(Join(fs, '\t'));
  }

  // The parser's documentation also names a comma-separated form. Such a line is
  // split at its one space: the PIN swallows the date and the time is the rest.
  lemma CommaLineMisread(pin: string, date: string, rest: string)
    requires Word(pin) && Word(date) && Word(rest) && pin[0] != '#'
    ensures ParsePayload(Join([pin + "," + date, rest], ' ')) == [Record(pin + "," + date, rest, "0", "1", "0")]
  {
    var fs := [pin + "," + date, rest];
    JoinShape(fs, ' ');
    SpacePartsJoin(fs);
    NoTabInWords(fs);
    OneLine(Join(fs, ' '));
  }

  function FileOf(lines: seq<string>): string {
    if lines == [] then "" else FileOf(lines[..|lines| - 1]) + ['\n'] + lines[|lines| - 1]
  }

  ghost predicate CleanRecord(r: Record) {
    Clean(r.pin) && Clean(r.time) && Clean(r.status) && Clean(r.verify) && Clean(r.work) && r.pin[0] != '#'
  }

  lemma EmptyFile()
    ensures ParsePayload("") == []
  {
    assert SplitLines(Strip("")) == [];
  }

  lemma AppendLine(text: string, line: string, front: seq<Record>, r: Record)
    requires ParsePayload(text) == front && ParsePayload(line) == [r]
    ensures ParsePayload(text + ['\n'] + line) == front + [r]
  {
    ParseConcatenation(text, line, '\n');
  }

  lemma {:induction false} FileOfLines(lines: seq<string>, rs: seq<Record>)
    requires |lines| == |rs| && forall i :: 0 <= i < |rs| ==> ParsePayload(lines[i]) == [rs[i]]
    ensures ParsePayload(FileOf(lines)) == rs
  {
    if rs == [] {
      EmptyFile();
    } else {
      var n := |rs| - 1;
      FileOfLines(lines[..n], rs[..n]);
      AppendLine(FileOf(lines[..n]), lines[n], rs[..n], rs[n]);
      assert rs[..n] + [rs[n]] == rs;
    }
  }

  // A whole upload reads back to its records, in order.
  lemma FileRoundTrip(rs: seq<Record>)
    requires forall i :: 0 <= i < |rs| ==> CleanRecord(rs[i])
    ensures ParsePayload(FileOf(seq(|rs|, i requires 0 <= i < |rs| => TabLine(rs[i], [])))) == rs
  {
    var lines := seq(|rs|, i requires 0 <= i < |rs| => TabLine(rs[i], []));
    forall i | 0 <= i < |rs|
      ensures ParsePayload(lines[i]) == [rs[i]]
    {
      TabLineRoundTrip(rs[i], []);
    }
    FileOfLines(lines, rs);
  }
}
