// Device uploads as they arrive: raw text, parsed and then recorded.

module UploadText {
  import opened Text
  import opened DayRow
  import opened AttendanceStore
  import opened AttendanceService
  import opened Payload
  import opened PayloadRoundTrip
  import opened UploadLaws
  import opened UploadOrder

  // handle_cdata_post: the device is registered if it is new, and an ATTLOG body is
  // parsed and recorded with the device's own time zone.
  method HandleCdataPost(service: Service, serial: string, attlog: bool, body: string, clk: Clock)
    modifies service
    ensures service.View() == if attlog then Post(service.cfg, clk, old(service.View()), serial, ParsePayload(body))
                              else old(service.View()).(logs := old(service.logs)[serial := Logged(old(service.View()), serial)])
  {
    service.RegisterDevice(serial);
    if attlog {
      var records := ParseAttendancePayload(body);
      service.HandleAttlog(serial, records, clk);
      RegisteredPost(service.cfg, clk, old(service.View()), serial, records);
    }
  }

  lemma RegisteredPost(cfg: Config, clk: Clock, st: Store, serial: string, rs: seq<Record>)
    ensures Post(cfg, clk, st.(logs := st.logs[serial := Logged(st, serial)]), serial, rs) == Post(cfg, clk, st, serial, rs)
  {
    UploadIgnoresLogs(At(cfg, serial), clk, st, st.logs[serial := Logged(st, serial)], rs);
  }

  // One post of two payloads joined by a line boundary and two posts, each at its
  // own time: the same days, punches and device total, and the same summaries under
  // the same exact condition as for records.
  lemma PayloadsCompose(cfg: Config, c1: Clock, c2: Clock, c: Clock, st: Store, serial: string, a: string, b: string, boundary: char)
    requires IsBreak(boundary)
    ensures var mid := Post(cfg, c1, st, serial, ParsePayload(a));
            var two, one := Post(cfg, c2, mid, serial, ParsePayload(b)), Post(cfg, c, st, serial, ParsePayload(a + [boundary] + b));
            && Alike(one, two) && one.logs == two.logs
            && (c == c2 ==> forall k :: k in two.days ==>
                  && (one.days[k] == two.days[k] <==> RowAgrees(At(cfg, serial), c1, c2, st, mid, two, k))
                  && (k.date != c1.today && k.date != c2.today ==> one.days[k] == two.days[k]))
  {
    hide Post, Alike, RowAgrees, ParsePayload;
    ParseConcatenation(a, b, boundary);
    BatchesCompose(cfg, c1, c2, c, st, serial, ParsePayload(a), ParsePayload(b));
    AlikeKeys(Post(cfg, c, st, serial, ParsePayload(a + [boundary] + b)), Post(cfg, c2, Post(cfg, c1, st, serial, ParsePayload(a)), serial, ParsePayload(b)));
  }

  // Sending the text again, later, adds nothing.
  lemma ResentTextIsIgnored(cfg: Config, clk1: Clock, clk2: Clock, st: Store, serial: string, body: string)
    ensures var once := Post(cfg, clk1, st, serial, ParsePayload(body));
            Post(cfg, clk2, once, serial, ParsePayload(body)) == once
  {
    ReplayIsIdempotent(cfg, clk1, clk2, st, serial, ParsePayload(body), ParsePayload(body));
  }

  // --- Lines in any order ---

  function Gather<T>(read: string -> seq<T>, lines: seq<string>): seq<T> {
    if lines == [] then [] else Gather(read, lines[..|lines| - 1]) + read(lines[|lines| - 1])
  }

  lemma {:induction false} JoinedRecords(lines: seq<string>)
    ensures ParsePayload(FileOf(lines)) == Gather(ParsePayload, lines)
  {
    if lines != [] {
      var front, last := lines[..|lines| - 1], lines[|lines| - 1];
      JoinedRecords(front);
      ParseConcatenation(FileOf(front), last, '\n');
      assert FileOf(front) + ['\n'] + last == FileOf(lines);
    }
  }

  lemma {:induction false} GatherAppends<T>(read: string -> seq<T>, a: seq<string>, b: seq<string>)
    ensures Gather(read, a + b) == Gather(read, a) + Gather(read, b)
  {
    if b == [] {
      assert a + b == a;
    } else {
      GatherAppends(read, a, b[..|b| - 1]);
      assert (a + b)[..|a + b| - 1] == a + b[..|b| - 1];
    }
  }

  lemma GatherWithout<T>(read: string -> seq<T>, ms: seq<string>, i: nat)
    requires i < |ms|
    ensures multiset(Gather(read, ms)) == multiset(Gather(read, ms[..i] + ms[i + 1..])) + multiset(read(ms[i]))
  {
    GatherAppends(read, ms[..i], ms[i + 1..]);
    GatherAppends(read, ms[..i + 1], ms[i + 1..]);
    assert ms == ms[..i + 1] + ms[i + 1..] && ms[..i + 1][..i] == ms[..i];
  }

  lemma {:induction false} PermutedLines<T>(read: string -> seq<T>, ls: seq<string>, ms: seq<string>)
    requires multiset(ls) == multiset(ms)
    ensures multiset(Gather(read, ls)) == multiset(Gather(read, ms))
    decreases |ls|
  {
    assert |ls| == |multiset(ls)| == |multiset(ms)| == |ms|;
    if ls != [] {
      var front, x := ls[..|ls| - 1], ls[|ls| - 1];
      assert ls == front + [x];
      assert x in multiset(ms);
      var i :| 0 <= i < |ms| && ms[i] == x;
      var rest := ms[..i] + ms[i + 1..];
      assert ms == ms[..i] + [x] + ms[i + 1..];
      assert multiset(rest) == multiset(ms) - multiset{x};
      assert multiset(front) == multiset(ls) - multiset{x};
      PermutedLines(read, front, rest);
      GatherWithout(read, ms, i);
    }
  }

  // When no two new records of a payload clash, the order of its lines does not matter.
  lemma LinesInAnyOrder(g: Grain, cfg: Config, clk: Clock, st: Store, serial: string, ls: seq<string>, ms: seq<string>)
    requires NumberedStore(st) && multiset(ls) == multiset(ms)
    requires AllCompatible(g, At(cfg, serial), st, ParsePayload(FileOf(ls)))
    ensures var s := Post(cfg, clk, st, serial, ParsePayload(FileOf(ls)));
            var t := Post(cfg, clk, st, serial, ParsePayload(FileOf(ms)));
            Same(g, s, t) && s.logs == t.logs
  {
    hide Post, Same, Compatible, ParsePayload;
    JoinedRecords(ls);
    JoinedRecords(ms);
    PermutedLines(ParsePayload, ls, ms);
    OrderDoesNotMatter(g, cfg, clk, st, serial, Gather(ParsePayload, ls), Gather(ParsePayload, ms));
  }
}
