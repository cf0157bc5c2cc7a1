/**
 The byte stream in front of the touchscreen server (touchscreen_drv/ts_srv.c, put_byte,
 consume_line, snarf2 and the main loop): bytes become rows of the matrix and frames,
 frames become reports, and silence becomes a liftoff. Every state the driver reaches is
 the state of a run in the sense of TouchTracking.
 */
module TouchDriver {
  import opened Shared
  import opened TouchFill
  import opened TouchTracking
  import opened TouchTable
  import opened TouchServer
  import Scanning = TouchScan
  import opened Framing = TouchFraming
  import opened TouchLiftoff

  // ----- which runs a stream of frames gives rise to -----

  /** The events are the frames in order, with liftoffs in between. */
  ghost predicate History(w: int -> real, events: seq<Event>, frames: seq<Grid>) {
    if events == [] then frames == []
    else
      var n, m := |events| - 1, |frames| - 1;
      match events[n]
      case Clear => History(w, events[..n], frames)
      case Scan(s, _, scanned) => frames != [] && Came(w, frames[m], s, scanned) && History(w, events[..n], frames[..m])
  }

  lemma {:induction false} HistoryScan(w: int -> real, events: seq<Event>, frames: seq<Grid>, s: Settings,
                                       lifted: bool, scanned: seq<TouchPoint>, g: Grid)
    requires History(w, events, frames) && Came(w, g, s, scanned)
    ensures History(w, events + [Scan(s, lifted, scanned)], frames + [g])
  {
    var e := events + [Scan(s, lifted, scanned)];
    assert e[..|e| - 1] == events && (frames + [g])[..|frames|] == frames;
  }

  lemma {:induction false} HistoryClear(w: int -> real, events: seq<Event>, frames: seq<Grid>)
    requires History(w, events, frames)
    ensures History(w, events + [Clear], frames)
  {
    var e := events + [Clear];
    assert e[..|e| - 1] == events;
  }

  /** What an event sends: the reports of its frame. A liftoff sends none of its own. */
  ghost function ReportsOf(atan2: Atan2, r: RunState, e: Event): (reports: seq<Report>)
    requires Inv(r)
  {
    match e
    case Clear => []
    case Scan(s, lifted, scanned) => TouchTracking.Frame(s, atan2, r.track, lifted, scanned).reports
  }

  /** What event number k of a run sends. */
  ghost function ReportsAt(atan2: Atan2, events: seq<Event>, k: nat): (reports: seq<Report>)
    requires GoodEvents(events) && k < |events|
  {
    ReportsOf(atan2, Run(atan2, events[..k]), events[k])
  }

  /** Everything the first n events of a run send, frame after frame. */
  ghost function ReportsUpTo(atan2: Atan2, events: seq<Event>, n: nat): (reports: seq<Report>)
    requires GoodEvents(events) && n <= |events|
  {
    if n == 0 then [] else ReportsUpTo(atan2, events, n - 1) + ReportsAt(atan2, events, n - 1)
  }

  ghost function AllReports(atan2: Atan2, events: seq<Event>): (reports: seq<Report>)
    requires GoodEvents(events)
  {
    ReportsUpTo(atan2, events, |events|)
  }

  lemma {:induction false} ReportsGrow(atan2: Atan2, events: seq<Event>, m: nat, n: nat)
    requires GoodEvents(events) && m <= n <= |events|
    ensures ReportsUpTo(atan2, events, m) <= ReportsUpTo(atan2, events, n)
  {
    if m < n {
      var k := n - 1;
      ReportsGrow(atan2, events, m, k);
      PrefixGrows(ReportsUpTo(atan2, events, m), ReportsUpTo(atan2, events, k), ReportsAt(atan2, events, k));
    }
  }

  lemma {:induction false} PrefixGrows<T>(a: seq<T>, b: seq<T>, c: seq<T>)
    requires a <= b
    ensures a <= b + c
  {
  }

  lemma {:induction false} ReportsAtPrefix(atan2: Atan2, events: seq<Event>, k: nat, n: nat)
    requires GoodEvents(events) && n < k <= |events|
    ensures ReportsAt(atan2, events[..k], n) == ReportsAt(atan2, events, n)
  {
    assert events[..k][..n] == events[..n];
  }

  /** Earlier reports do not depend on later events. */
  lemma {:induction false} ReportsPrefix(atan2: Atan2, events: seq<Event>, k: nat, n: nat)
    requires GoodEvents(events) && n <= k <= |events|
    ensures ReportsUpTo(atan2, events[..k], n) == ReportsUpTo(atan2, events, n)
  {
    if n > 0 {
      ReportsPrefix(atan2, events, k, n - 1);
      ReportsAtPrefix(atan2, events, k, n - 1);
    }
  }

  lemma {:induction false} RecordScan(w: int -> real, atan2: Atan2, events: seq<Event>, frames: seq<Grid>,
                                      s: Settings, lifted: bool, scanned: seq<TouchPoint>, g: Grid)
    requires GoodEvents(events) && History(w, events, frames)
    requires Sane(s) && AllScanned(s, scanned) && Came(w, g, s, scanned)
    ensures var e := events + [Scan(s, lifted, scanned)];
            GoodEvents(e) && History(w, e, frames + [g])
                && Run(atan2, e) == StepFrame(s, atan2, Run(atan2, events), lifted, scanned)
  {
    HistoryScan(w, events, frames, s, lifted, scanned, g);
    RunSnoc(atan2, events, Scan(s, lifted, scanned));
  }

  /** One more event sends its own reports. */
  lemma {:induction false} SentSnoc(atan2: Atan2, events: seq<Event>, e: Event)
    requires GoodEvents(events) && GoodEvent(e)
    ensures GoodEvents(events + [e])
    ensures AllReports(atan2, events + [e]) == AllReports(atan2, events) + ReportsOf(atan2, Run(atan2, events), e)
  {
    var all := events + [e];
    assert all[..|events|] == events;
    ReportsPrefix(atan2, all, |events|, |events|);
  }

  /** Each frame of a history enters the run as one scan event. */
  lemma {:induction false} HistoryFrame(w: int -> real, events: seq<Event>, frames: seq<Grid>, k: nat) returns (e: nat)
    requires History(w, events, frames) && k < |frames|
    ensures e < |events| && events[e].Scan? && Came(w, frames[k], events[e].s, events[e].scanned)
    ensures History(w, events[..e], frames[..k])
    decreases |events|
  {
    var n := |events| - 1;
    if events[n].Clear? {
      e := HistoryFrame(w, events[..n], frames, k);
      assert events[..n][..e] == events[..e];
    } else if k == |frames| - 1 {
      e := n;
    } else {
      e := HistoryFrame(w, events[..n], frames[..|frames| - 1], k);
      assert events[..n][..e] == events[..e] && frames[..|frames| - 1][..k] == frames[..k];
    }
  }

  /** From bytes to reports: frame number k of a history is scanned in the state of the run
      so far, its touches are the fingers of its matrix when every reading above the threshold
      is strong (in finger mode, always), and what it adds to the reports sent is on the screen, due, and numbered
      consistently. */
  lemma {:induction false} FrameReports(w: int -> real, atan2: Atan2, events: seq<Event>, frames: seq<Grid>,
                                        k: nat) returns (e: nat)
    requires GoodEvents(events) && History(w, events, frames) && k < |frames|
    ensures e < |events| && events[e].Scan? && IsGrid(frames[k]) && GoodEvents(events[..e]) && GoodEvent(events[e])
    ensures History(w, events[..e], frames[..k])
    ensures AllReports(atan2, events[..e]) + ReportsAt(atan2, events, e) <= AllReports(atan2, events)
    ensures var (s, lifted, scanned, r) := (events[e].s, events[e].lifted, events[e].scanned, Run(atan2, events[..e]));
            var o := TouchTracking.Frame(s, atan2, r.track, lifted, scanned);
            && ReportsAt(atan2, events, e) == o.reports == Reports(o.touches)
            && GoodFrame(s, r, lifted, scanned, o) && ReportsOnScreen(o.reports)
                && Due(s, ChainsOf(r, lifted), scanned, o.touches)
    ensures Scanning.HotStrong(frames[k], events[e].s.continued) ==>
              |events[e].scanned| == Min(MAX_TOUCH, |Scanning.Fingers(frames[k], events[e].s.continued)|)
  {
    e := HistoryFrame(w, events, frames, k);
    assert GoodEvent(events[e]);
    ReportsPrefix(atan2, events, e, e);
    ReportsGrow(atan2, events, e + 1, |events|);
    var s := events[e].s;
    RunIsSafe(atan2, events[..e], s, events[e].lifted, events[e].scanned);
    if Scanning.HotStrong(frames[k], s.continued) { Scanning.OneTouchPerFinger(frames[k], s.continued); }
  }

  /** This is the state that a run of these frames leads to, and what the run reports has been
      sent. */
  ghost predicate LeadsTo(w: int -> real, atan2: Atan2, events: seq<Event>, frames: seq<Grid>, k: Kept) {
    && GoodEvents(events) && k.run == Run(atan2, events) && History(w, events, frames)
    && k.sent == AllReports(atan2, events)
    && LiftsRight(events) && k.rows == RowsAfter(events)
  }

  ghost predicate Leads(server: Server, events: seq<Event>, frames: seq<Grid>)
    reads server`run, server`sent, server`used, server`tpoint
  {
    LeadsTo(server.weight, server.atan2, events, frames, server.Keeps())
  }

  lemma {:induction false} RunScanned(w: int -> real, atan2: Atan2, events: seq<Event>, frames: seq<Grid>, k: Kept,
                                      s: Settings, lifted: bool, scanned: seq<TouchPoint>, g: Grid, k': Kept)
    requires LeadsTo(w, atan2, events, frames, k) && FrameStep(atan2, k, s, lifted, scanned, k')
    requires Sane(s) && AllScanned(s, scanned) && Came(w, g, s, scanned)
    ensures var all := events + [Scan(s, lifted, scanned)];
            && GoodEvents(all) && k'.run == Run(atan2, all) && History(w, all, frames + [g])
            && k'.sent == AllReports(atan2, all)
  {
    RecordScan(w, atan2, events, frames, s, lifted, scanned, g);
    SentSnoc(atan2, events, Scan(s, lifted, scanned));
  }

  lemma {:induction false} LeadsScan(w: int -> real, atan2: Atan2, events: seq<Event>, frames: seq<Grid>, k: Kept,
                                     s: Settings, lifted: bool, scanned: seq<TouchPoint>, g: Grid, k': Kept)
    requires LeadsTo(w, atan2, events, frames, k) && FrameStep(atan2, k, s, lifted, scanned, k')
    requires Sane(s) && AllScanned(s, scanned) && Came(w, g, s, scanned)
    ensures var all := events + [Scan(s, lifted, scanned)];
            LeadsTo(w, atan2, all, frames + [g], k') && Scans(events, all, 1, scanned != [])
  {
    RunScanned(w, atan2, events, frames, k, s, lifted, scanned, g, k');
    LiftsSnoc(events, Scan(s, lifted, scanned));
    ScansOne(events, Scan(s, lifted, scanned));
  }

  lemma {:induction false} LeadsClear(w: int -> real, atan2: Atan2, events: seq<Event>, frames: seq<Grid>, k: Kept,
                                      k': Kept)
    requires LeadsTo(w, atan2, events, frames, k) && k'.run == StepClear(k.run) && k'.sent == k.sent
    requires k'.rows == TouchLiftoff.Rows(k.rows.row, {})
    ensures LeadsTo(w, atan2, events + [Clear], frames, k')
  {
    HistoryClear(w, events, frames);
    RunSnoc(atan2, events, Clear);
    SentSnoc(atan2, events, Clear);
    LiftsSnoc(events, Clear);
  }

  /** The next byte of a stream. */
  lemma {:induction false} NextByte(w: Wire, all: seq<Byte>, i: nat, next: nat)
    requires IsGrid(w.matrix) && i < |all| && next == i + 1 && Safe(w, all[i..])
    ensures ByteSafe(w, all[i]) && Safe(FeedByte(w, all[i]), all[next..])
    ensures Feed(FeedByte(w, all[i]), all[next..]) == Feed(w, all[i..])
  {
    assert all[i..][0] == all[i] && all[i..][1..] == all[next..];
  }

  /** One scan for each matrix. */
  ghost predicate AddedTo(events: seq<Event>, frames: seq<Grid>, events': seq<Event>, frames': seq<Grid>,
                          touches: nat) {
    |frames| <= |frames'| && Scans(events, events', |frames'| - |frames|, touches > 0)
  }

  lemma {:induction false} AddedNone(events: seq<Event>, frames: seq<Grid>)
    ensures AddedTo(events, frames, events, frames, 0)
  {
    ScansNone(events);
  }

  ghost predicate ReadAddsTo(events: seq<Event>, frames: seq<Grid>, events': seq<Event>, frames': seq<Grid>,
                             flag: bool, flag': bool) {
    |frames| <= |frames'| && ReadAdds(events, events', |frames'| - |frames|, flag, flag')
  }

  lemma {:induction false} ReadEndsTo(events: seq<Event>, frames: seq<Grid>, scans: seq<Event>, events': seq<Event>,
                                      frames': seq<Grid>, touches: nat, flag: bool, flag': bool)
    requires AddedTo(events, frames, scans, frames', touches) && flag' == (touches > 0)
    requires events' == if flag && touches == 0 then scans + [Clear] else scans
    ensures ReadAddsTo(events, frames, events', frames', flag, flag')
  {
    ReadEnds(events, scans, events', |frames'| - |frames|, flag, flag');
  }

  twostate lemma {:induction false} ServerKept(server: Server)
    requires old(server.Valid()) && unchanged(server) && unchanged(server.matrix) && unchanged(server.invalid)
             && unchanged(server.tp)
    ensures server.Valid()
  {
  }

  class Driver {
    const server: Server
    const cline: array<Byte>
    var cidx: nat
    var needLiftoff: bool
    ghost var frames: seq<Grid>     // the matrices handed to calc_point so far
    ghost var events: seq<Event>    // the frames and liftoffs so far

    ghost function Line(): (l: seq<Byte>)
      reads `cidx, cline
      requires cidx <= cline.Length
    {
      cline[..cidx]
    }

    ghost function State(): (w: Wire)
      reads `cidx, `frames, cline, server`grid
      requires cidx <= cline.Length
    {
      Wire(Line(), server.grid, frames)
    }

    /** The server is in the state that the recorded run leads to. */
    ghost predicate Recorded()
      reads `events, `frames, server`run, server`sent, server`used, server`tpoint
    {
      Leads(server, events, frames)
    }

    ghost predicate Valid()
      reads this, cline, server, server.matrix, server.invalid, server.tp
    {
      && server.Valid() && cline.Length == LINE_SIZE && cidx <= LINE_SIZE && Recorded()
    }

    /** Nothing is touching the screen, as far as has been reported. */
    ghost predicate Quiet()
      reads server`run
    {
      server.run.track.cur == []
    }

    constructor (weight: int -> real, atan2: Atan2)
      requires GoodWeight(weight)
      ensures Valid() && fresh(server) && fresh(cline) && fresh(server.matrix) && fresh(server.invalid)
              && fresh(server.tp)
      ensures State() == Wire([], Framing.Blank(), []) && events == [] && !needLiftoff && Quiet()
    {
      server := new Server(weight, atan2);
      cline := new Byte[LINE_SIZE](_ => 0);
      cidx, needLiftoff := 0, false;
      frames, events := [], [];
    }

    method ClineValid(extras: nat) returns (valid: bool)
      requires cline.Length == LINE_SIZE && cidx <= LINE_SIZE && extras <= 1
      ensures valid == LineValid(Line(), extras)
    {
      if cline[0] == START && cline[1] == ROW_FRAME && cidx == ROW_FRAME_SIZE - extras {
        return true;
      }
      if cline[0] == START && cline[1] == END_FRAME && cidx > 4 && cidx == cline[2] + 4 - extras {
        return true;
      }
      return false;
    }

    method PutByte(b: Byte)
      requires cline.Length == LINE_SIZE && cidx <= LINE_SIZE && |Framing.PutByte(Line(), b)| <= LINE_SIZE
      modifies `cidx, cline
      ensures cidx <= LINE_SIZE && Line() == Framing.PutByte(old(Line()), b)
    {
      if cidx == 0 && b != START { return; }
      if b == START {
        var complete := ClineValid(1);
        if !complete { cidx := 0; }
      }
      cline[cidx] := b;
      cidx := cidx + 1;
    }

    /** A complete line has this effect, apart from the line itself. */
    ghost predicate Takes(w: Wire, frames': seq<Grid>)
      reads server`grid
      requires IsGrid(w.matrix) && LineValid(w.line, 0) && LineSafe(w.line)
    {
      Consume(w) == Wire([], server.grid, frames')
    }

    /** The matrix becomes touches and reports. */
    method RecordFrame() returns (ret: nat, ghost events': seq<Event>)
      requires server.Valid() && Recorded()
      modifies server`tpoint, server`prevtpoint, server`prev2tpoint, server`previoustpc, server`trackingId,
               server`initialX, server`initialY, server`sent, server`run, server`table, server`used, server.invalid,
               server.tp
      ensures server.Valid() && Leads(server, events', frames + [server.grid])
      ensures AddedTo(events, frames, events', frames + [server.grid], ret)
      ensures ret == 0 ==> Quiet()
    {
      ghost var s, was := server.settings, server.Keeps();
      ghost var lifted, scanned;
      ret, lifted, scanned := server.CalcPoint();
      LeadsScan(server.weight, server.atan2, events, frames, was, s, lifted, scanned, server.grid,
                server.Keeps());
      events' := events + [Scan(s, lifted, scanned)];
    }

    /** An end frame hands the matrix on. */
    method ConsumeEnd() returns (ret: nat, ghost events': seq<Event>, ghost frames': seq<Grid>)
      requires server.Valid() && Recorded()
      requires cidx <= cline.Length == LINE_SIZE && LineValid(Line(), 0) && LineSafe(Line()) && cline[1] == END_FRAME
      modifies server`tpoint, server`prevtpoint, server`prev2tpoint, server`previoustpc, server`trackingId,
               server`initialX, server`initialY, server`sent, server`run, server`table, server`used, server.invalid,
               server.tp
      ensures server.Valid() && Leads(server, events', frames')
      ensures AddedTo(events, frames, events', frames', ret)
      ensures Takes(old(State()), frames')
      ensures ret == 0 ==> Quiet()
    {
      frames' := frames + [server.grid];
      assert Takes(State(), frames');
      ret, events' := RecordFrame();
    }

    /** A row frame goes into the matrix. */
    method ConsumeRow()
      requires server.Valid() && cidx <= cline.Length == LINE_SIZE && LineValid(Line(), 0) && LineSafe(Line())
               && cline[1] == ROW_FRAME
      modifies server`grid, server.matrix
      ensures server.Valid() && Takes(old(State()), frames)
    {
      assert Line()[3..3 + Y_AXIS_POINTS] == cline[3..3 + Y_AXIS_POINTS];
      server.StoreLine(cline);
    }

    /** The complete line takes its effect on the server. */
    method TakeEffect() returns (ret: nat, ghost events': seq<Event>, ghost frames': seq<Grid>)
      requires Valid() && LineValid(Line(), 0) && LineSafe(Line())
      modifies server, server.matrix, server.invalid, server.tp
      ensures server.Valid() && Leads(server, events', frames')
      ensures AddedTo(events, frames, events', frames', ret)
      ensures Takes(old(State()), frames')
      ensures ret == 0 ==> Quiet() || server.run == old(server.run)
    {
      ret, events', frames' := 0, events, frames;
      AddedNone(events, frames);
      if cline[1] == END_FRAME {
        ret, events', frames' := ConsumeEnd();
      } else if cline[1] == ROW_FRAME {
        ConsumeRow();
      }
    }

    method ConsumeLine() returns (ret: nat)
      requires Valid() && LineValid(Line(), 0) && LineSafe(Line())
      modifies `cidx, `frames, `events, server, server.matrix, server.invalid, server.tp
      ensures Valid() && State() == Consume(old(State()))
      ensures Added(old(events), old(frames), ret)
      ensures ret == 0 ==> Quiet() || server.run == old(server.run)
    {
      ghost var events', frames';
      ret, events', frames' := TakeEffect();
      EndLine(frames', events', ret);
    }

    /** Since then, one scan has been added to the run for each matrix handed over, and
        nothing else; `touches` is zero exactly when none of them shows a touch. */
    ghost predicate Added(events0: seq<Event>, frames0: seq<Grid>, touches: nat)
      reads `events, `frames
    {
      AddedTo(events0, frames0, events, frames, touches)
    }

    /** The line is done with; the run that the server is in is recorded. */
    method EndLine(ghost frames': seq<Grid>, ghost events': seq<Event>, ghost ret: nat)
      requires server.Valid() && cline.Length == LINE_SIZE && cidx <= LINE_SIZE
      requires Leads(server, events', frames') && AddedTo(events, frames, events', frames', ret)
      modifies `cidx, `frames, `events
      ensures Valid() && State() == Wire([], server.grid, frames') && Added(old(events), old(frames), ret)
    {
      events, frames, cidx := events', frames', 0;
      ServerKept(server);
    }

    /** A byte is collected; nothing else changes. */
    method Collect(b: Byte)
      requires Valid() && ByteSafe(State(), b)
      modifies `cidx, cline
      ensures Valid() && State() == old(State()).(line := Framing.PutByte(old(Line()), b))
    {
      PutByte(b);
      ServerKept(server);
    }

    /** One byte of a read. */
    method Accept(b: Byte) returns (ret: nat)
      requires Valid() && ByteSafe(State(), b)
      modifies `cidx, `frames, `events, server, server.matrix, server.invalid, server.tp, cline
      ensures Valid() && State() == FeedByte(old(State()), b)
      ensures Added(old(events), old(frames), ret)
      ensures ret == 0 ==> Quiet() || server.run == old(server.run)
    {
      Collect(b);
      ScansNone(events);
      var complete := ClineValid(0);
      ret := 0;
      if complete { ret := ConsumeLine(); }
    }

    /** One more byte of a read, in which `ret0` touches have been found so far. */
    method AcceptNext(b: Byte, ret0: nat, ghost events0: seq<Event>, ghost frames0: seq<Grid>) returns (ret: nat)
      requires Valid() && ByteSafe(State(), b) && Added(events0, frames0, ret0)
      modifies `cidx, `frames, `events, server, server.matrix, server.invalid, server.tp, cline
      ensures Valid() && State() == FeedByte(old(State()), b) && Added(events0, frames0, ret)
      ensures ret == 0 ==> ret0 == 0 && (Quiet() || server.run == old(server.run))
    {
      ghost var events1, frames1 := events, frames;
      var touches := Accept(b);
      ret := ret0 + touches;
      ScansMore(events0, events1, events, |frames1| - |frames0|, |frames| - |frames1|, ret0 > 0, touches > 0);
    }

    /** snarf2: the bytes of one read. What they do is what the automaton says, whatever the
        reads before; each end frame among them has added its scan to the run, and the result
        is zero exactly when none of these shows a touch. */
    method Snarf2(bytes: array<Byte>, size: nat) returns (ret: nat)
      requires Valid() && bytes != cline && size <= bytes.Length && Safe(State(), bytes[..size])
      modifies `cidx, `frames, `events, server, server.matrix, server.invalid, server.tp, cline
      ensures Valid() && State() == Feed(old(State()), old(bytes[..size]))
      ensures Added(old(events), old(frames), ret)
      ensures ret == 0 && old(Quiet()) ==> Quiet()
    {
      ret := 0;
      ScansNone(events);
      ghost var all, events0, frames0 := bytes[..size], events, frames;
      for i := 0 to size
        invariant Valid() && bytes[..size] == all && Added(events0, frames0, ret)
        invariant Safe(State(), all[i..]) && Feed(State(), all[i..]) == Feed(old(State()), all)
        invariant ret == 0 && old(Quiet()) ==> Quiet()
      {
        NextByte(State(), all, i, i + 1);
        ret := AcceptNext(bytes[i], ret, events0, frames0);
      }
      assert all[size..] == [];
    }

    /** liftoff and clear_arrays. */
    method Liftoff()
      requires Valid()
      modifies `events, `needLiftoff, server`table, server`used, server`run, server.tp
      ensures Valid() && Quiet() && !needLiftoff && events == old(events) + [Clear] && State() == old(State())
    {
      ghost var was := server.Keeps();
      server.ClearArrays();
      label cleared:
      LeadsClear(server.weight, server.atan2, events, frames, was, server.Keeps());
      events, needLiftoff := events + [Clear], false;
      ServerKept@cleared(server);
    }

    /** The main loop on a read: a read that shows no touch lifts off what is left. Between
        reads the liftoff flag is set whenever a touch may be live. */
    method HandleRead(bytes: array<Byte>, nbytes: int)
      requires Valid() && bytes != cline && nbytes <= bytes.Length && (nbytes > 0 ==> Safe(State(), bytes[..nbytes]))
      requires needLiftoff || Quiet()
      modifies this, server, server.matrix, server.invalid, server.tp, cline
      ensures Valid() && (needLiftoff || Quiet())
      ensures nbytes > 0 ==> State() == Feed(old(State()), old(bytes[..nbytes]))
      ensures nbytes > 0 ==> ReadDone(old(events), old(frames), old(needLiftoff))
      ensures nbytes <= 0 ==> State() == old(State()) && events == old(events) && needLiftoff == old(needLiftoff)
    {
      if nbytes <= 0 { return; }
      Receive(bytes, nbytes);
    }

    /** ... when there are bytes. */
    method Receive(bytes: array<Byte>, nbytes: nat)
      requires Valid() && bytes != cline && nbytes <= bytes.Length && Safe(State(), bytes[..nbytes])
      requires needLiftoff || Quiet()
      modifies this, server, server.matrix, server.invalid, server.tp, cline
      ensures Valid() && (needLiftoff || Quiet()) && State() == Feed(old(State()), old(bytes[..nbytes]))
      ensures ReadDone(old(events), old(frames), old(needLiftoff))
    {
      ghost var events0, frames0 := events, frames;
      var touches := Snarf2(bytes, nbytes);
      AfterRead(touches, events0, frames0);
    }

    /** A read has added one scan for each matrix handed over, and then a liftoff exactly when
        none of them shows a touch and the flag was set. The flag now says whether one did. */
    ghost predicate ReadDone(events0: seq<Event>, frames0: seq<Grid>, flag: bool)
      reads `events, `frames, `needLiftoff
    {
      ReadAddsTo(events0, frames0, events, frames, flag, needLiftoff)
    }

    /** ... and what follows a read with this many touches. */
    method AfterRead(touches: nat, ghost events0: seq<Event>, ghost frames0: seq<Grid>)
      requires Valid() && (touches == 0 && !needLiftoff ==> Quiet()) && Added(events0, frames0, touches)
      modifies `events, `needLiftoff, server`table, server`used, server`run, server.tp
      ensures Valid() && (needLiftoff || Quiet()) && State() == old(State())
      ensures ReadDone(events0, frames0, old(needLiftoff))
    {
      ghost var scans, flag := events, needLiftoff;
      LiftOrFlag(touches);
      ReadEndsTo(events0, frames0, scans, events, frames, touches, flag, needLiftoff);
    }

    method LiftOrFlag(touches: nat)
      requires Valid() && (touches == 0 && !needLiftoff ==> Quiet())
      modifies `events, `needLiftoff, server`table, server`used, server`run, server.tp
      ensures Valid() && (needLiftoff || Quiet()) && State() == old(State()) && needLiftoff == (touches > 0)
      ensures events == if old(needLiftoff) && touches == 0 then old(events) + [Clear] else old(events)
    {
      if touches == 0 {
        if needLiftoff { Liftoff(); }
      } else {
        needLiftoff := true;
        ServerKept(server);
      }
    }

    /** A change of the mode between two reads: the frames to come are judged by the new
        thresholds, and everything else stays. */
    method SetTsMode(mode: int)
      requires Valid()
      modifies server`settings
      ensures Valid() && State() == old(State()) && server.run == old(server.run)
      ensures server.settings == if mode == 0 then FINGER else STYLUS
    {
      server.SetTsMode(mode);
    }

    /** The main loop when the digitizer has been silent: nothing stays on the screen. */
    method HandleTimeout()
      requires Valid() && (needLiftoff || Quiet())
      modifies `events, `needLiftoff, server`table, server`used, server`run, server.tp
      ensures Valid() && Quiet() && !needLiftoff && State() == old(State())
      ensures events == if old(needLiftoff) then old(events) + [Clear] else old(events)
    {
      if needLiftoff { Liftoff(); }
    }
  }
}
