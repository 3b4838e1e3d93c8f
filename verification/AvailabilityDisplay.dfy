/** From the server's bookings to the client's screen: asking for a facility's availability
    shows each day's free slots, in order, and the days in week order. */
module AvailabilityDisplay {
  import opened Basics
  import opened TimeSlots
  import opened Bookings
  import opened Messages
  import opened Text
  import opened ServerModel
  import opened ResponseParser

  // ---------- what the user should see ----------

  function Clock(slot: TimeSlot): string { StartText(slot) + " to " + EndText(slot) }

  function Clocks(slots: seq<TimeSlot>): (r: seq<string>) {
    if slots == [] then [] else [Clock(slots[0])] + Clocks(slots[1..])
  }

  function Commas(texts: seq<string>): (r: string) {
    if texts == [] then "" else if |texts| == 1 then texts[0] else texts[0] + ", " + Commas(texts[1..])
  }

  function Show(day: Day, slots: seq<TimeSlot>): string { DayName(day) + ": " + Commas(Clocks(slots)) }

  /** One entry for each day with free slots; when days were asked for, one for each of those
      and no other. */
  function Entries(c: Calendar, days: seq<Day>, asked: seq<Day>, show: (Day, seq<TimeSlot>) -> string): (r: seq<string>)
    requires c.Shaped()
  {
    if days == [] then []
    else Entry(c, days[0], asked, show) + Entries(c, days[1..], asked, show)
  }

  function Entry(c: Calendar, day: Day, asked: seq<Day>, show: (Day, seq<TimeSlot>) -> string): (r: seq<string>)
    requires c.Shaped()
  {
    if asked != [] && day !in asked then []
    else if FreeSlots(c, day) != [] then [show(day, FreeSlots(c, day))]
    else if asked != [] then [DayName(day) + ": Closed"] else []
  }

  /** The start of every free slot is printed without a minus sign. */
  predicate PlainStarts(slots: seq<TimeSlot>) {
    forall i :: 0 <= i < |slots| ==> slots[i].startHour >= 0 && slots[i].startMinute >= 0
  }

  // ---------- one slot ----------

  lemma PrintSign(n: int)
    ensures '-' in Pad2(n) <==> n < 0
    ensures n < 0 ==> Pad2(n)[0] == '-'
  {
    if n < 0 {
      assert Pad2(n)[0] == '-';
    } else {
      assert forall i :: 0 <= i < |PrintNat(n)| ==> PrintNat(n)[i] != '-';
    }
  }

  /** The client turns the right dash into "to" exactly when the start has no minus sign. */
  lemma DashIff(slot: TimeSlot)
    ensures Dash(SlotText(slot)) == Clock(slot) <==> slot.startHour >= 0 && slot.startMinute >= 0
  {
    hide Pad2;
    var t, start := SlotText(slot), StartText(slot);
    PrintSign(slot.startHour);
    PrintSign(slot.startMinute);
    assert '-' in start <==> slot.startHour < 0 || slot.startMinute < 0 by {
      InEither(Pad2(slot.startHour), Pad2(slot.startMinute));
    }
    DashMoves(start, EndText(slot));
  }

  lemma InEither(a: string, b: string)
    ensures '-' in a + b <==> '-' in a || '-' in b
  {
  }

  lemma DashMoves(start: string, end: string)
    ensures Dash(start + " - " + end) == start + " to " + end <==> '-' !in start
  {
    var t := start + " - " + end;
    var k := IndexOf(t, '-');
    if '-' in start {
      var j :| 0 <= j < |start| && start[j] == '-';
      assert t[j] == '-';
      assert k < |start|;
      assert Dash(t)[k] == 't' && (start + " to " + end)[k] == start[k] == '-';
    } else {
      assert t[|start| + 1] == '-';
      assert forall i :: 0 <= i < |start| + 1 ==> t[i] != '-' by {
        assert forall i :: 0 <= i < |start| ==> t[i] == start[i] && start[i] in start;
      }
      assert k == |start| + 1;
      assert t[..k] == start + " " && t[k + 1..] == " " + end;
    }
  }

  lemma DashLength(slot: TimeSlot)
    ensures |Dash(SlotText(slot))| == |Clock(slot)|
  {
    hide Pad2;
    assert SlotText(slot)[|StartText(slot)| + 1] == '-';
  }

  lemma SlotChars(slot: TimeSlot)
    ensures ',' !in SlotText(slot) && '\n' !in SlotText(slot) && SlotText(slot) != ""
  {
    assert forall c :: c in " - " ==> c != ',' && c != '\n';
  }

  // ---------- pieces ----------

  lemma PiecesCons(line: string, c: char, rest: string)
    requires c !in line
    ensures Pieces(line + [c] + rest, c) == [line] + Pieces(rest, c)
  {
    var s := line + [c] + rest;
    IndexOfFirst(line, c, rest);
    assert s[..|line|] == line && s[|line| + 1..] == rest;
  }

  function SlotTexts(slots: seq<TimeSlot>): (r: seq<string>) {
    if slots == [] then [] else [SlotText(slots[0])] + SlotTexts(slots[1..])
  }

  lemma {:induction false} PiecesSlots(slots: seq<TimeSlot>)
    ensures Pieces(SlotsText(slots), ',') == SlotTexts(slots)
    ensures '\n' !in SlotsText(slots)
  {
    hide SlotText;
    if slots != [] {
      SlotChars(slots[0]);
      PiecesCons(SlotText(slots[0]), ',', SlotsText(slots[1..]));
      assert SlotsText(slots) == SlotText(slots[0]) + [','] + SlotsText(slots[1..]);
      PiecesSlots(slots[1..]);
    }
  }

  lemma SplitEqual<T>(a: seq<T>, b: seq<T>, x: seq<T>, y: seq<T>)
    requires |a| == |x|
    ensures a + b == x + y <==> a == x && b == y
  {
    assert (a + b)[..|a|] == a && (a + b)[|a|..] == b && (x + y)[..|x|] == x && (x + y)[|x|..] == y;
  }

  /** The client's list of slots has the right length, and is right iff every start is. */
  lemma {:induction false} SpacedSlots(slots: seq<TimeSlot>)
    requires slots != []
    ensures |Spaced(SlotTexts(slots))| == |Commas(Clocks(slots))| + 2
    ensures Spaced(SlotTexts(slots))[|Spaced(SlotTexts(slots))| - 2..] == ", "
    ensures Spaced(SlotTexts(slots)) == Commas(Clocks(slots)) + ", " <==> PlainStarts(slots)
    decreases slots
  {
    hide SlotText, Dash, Clock, Spaced, Commas, PlainStarts;
    var first, texts := Dash(SlotText(slots[0])) + ", ", SlotTexts(slots[1..]);
    DashIff(slots[0]);
    DashLength(slots[0]);
    SlotChars(slots[0]);
    SpacedFirst(SlotText(slots[0]), texts);
    SplitEqual(Dash(SlotText(slots[0])), ", ", Clock(slots[0]), ", ");
    PlainFirst(slots);
    CommasFirst(Clock(slots[0]), Clocks(slots[1..]));
    if |slots| == 1 {
      NothingPlain();
      assert first + "" == first;
      assert slots[1..] == [] && Clock(slots[0]) + ", " == Commas(Clocks(slots)) + ", ";
    } else {
      SpacedSlots(slots[1..]);
      SplitEqual(first, Spaced(texts), Clock(slots[0]) + ", ", Commas(Clocks(slots[1..])) + ", ");
      assert Clock(slots[0]) + ", " + Commas(Clocks(slots[1..])) + ", "
          == Clock(slots[0]) + ", " + (Commas(Clocks(slots[1..])) + ", ");
    }
  }

  lemma SpacedFirst(text: string, rest: seq<string>)
    requires text != ""
    ensures Spaced([text] + rest) == Dash(text) + ", " + Spaced(rest) && Spaced([]) == ""
  {
    hide Dash;
    assert ([text] + rest)[1..] == rest;
  }

  lemma CommasFirst(text: string, rest: seq<string>)
    ensures Commas([text] + rest) == if rest == [] then text else text + ", " + Commas(rest)
  {
    assert ([text] + rest)[1..] == rest;
  }

  lemma PlainFirst(slots: seq<TimeSlot>)
    requires slots != []
    ensures PlainStarts(slots) <==> slots[0].startHour >= 0 && slots[0].startMinute >= 0 && PlainStarts(slots[1..])
  {
    assert forall i :: 0 < i < |slots| ==> slots[i] == slots[1..][i - 1];
  }

  /** The text the client makes of a day's line. */
  function Rendered(day: Day, slots: seq<TimeSlot>): string {
    Trimmed(DayName(day) + ": " + Spaced(SlotTexts(slots)))
  }

  /** It is what the user should see iff every start is printed without a minus sign. */
  lemma RenderedIff(day: Day, slots: seq<TimeSlot>)
    requires slots != []
    ensures Rendered(day, slots) == Show(day, slots) <==> PlainStarts(slots)
  {
    hide Spaced, SlotTexts, Clocks, Commas, PlainStarts, DayName;
    SpacedSlots(slots);
    TrimIff(DayName(day) + ": ", Spaced(SlotTexts(slots)), Commas(Clocks(slots)));
  }

  lemma TrimIff(head: string, text: string, body: string)
    requires |head| >= 2 && |text| == |body| + 2 && text[|text| - 2..] == ", "
    ensures Trimmed(head + text) == head + body <==> text == body + ", "
  {
    assert text == text[..|body|] + ", ";
    SplitEqual(text[..|body|], ", ", body, ", ");
    SplitEqual(head, text[..|body|], head, body);
    assert (head + text)[..|head + text| - 2] == head + text[..|body|];
  }

  /** The line of a day becomes the text shown for it. */
  lemma TakeDay(board: Board, day: Day, slots: seq<TimeSlot>)
    ensures TakeLine(board, DayName(day) + ":" + SlotsText(slots))
            == board.(times := board.times[DayName(day) := Rendered(day, slots)])
  {
    hide Spaced, Pieces, SlotsText, DayName, Trimmed;
    PiecesSlots(slots);
    NameFacts(day);
    TakeNamed(board, DayName(day), SlotsText(slots));
  }

  lemma NameFacts(day: Day)
    ensures 'A' <= DayName(day)[0] <= 'Z' && ':' !in DayName(day)
  {
    DayRoundTrip(day);
    assert DayName(day)[0] in DayName(day);
  }

  lemma TakeNamed(board: Board, name: string, rest: string)
    requires name != "" && 'A' <= name[0] <= 'Z' && ':' !in name
    ensures TakeLine(board, name + ":" + rest)
            == board.(times := board.times[name := Trimmed(name + ": " + Spaced(Pieces(rest, ',')))])
  {
    hide Spaced, Pieces, Trimmed;
    var line := name + ":" + rest;
    assert line[0] == name[0];
    IndexOfFirst(name, ':', rest);
    assert line[..|name|] == name && line[|name| + 1..] == rest;
  }

  // ---------- the days ----------

  predicate Listed(c: Calendar, day: Day, wanted: set<Day>)
    requires c.Shaped()
  {
    (wanted == {} || day in wanted) && FreeSlots(c, day) != []
  }

  function DayLines(c: Calendar, days: seq<Day>, wanted: set<Day>): (r: seq<string>)
    requires c.Shaped()
  {
    if days == [] then []
    else (if Listed(c, days[0], wanted) then [DayName(days[0]) + ":" + SlotsText(FreeSlots(c, days[0]))] else [])
         + DayLines(c, days[1..], wanted)
  }

  lemma NoPieces()
    ensures Pieces("", '\n') == []
  {
  }

  lemma OneLine(day: Day, slots: seq<TimeSlot>)
    ensures '\n' !in DayName(day) + ":" + SlotsText(slots)
  {
    hide DayName, SlotsText;
    DayRoundTrip(day);
    PiecesSlots(slots);
  }

  lemma {:induction false} PiecesDays(c: Calendar, days: seq<Day>, wanted: set<Day>)
    requires c.Shaped()
    ensures Pieces(DaysText(c, days, wanted), '\n') == DayLines(c, days, wanted)
  {
    hide FreeSlots, SlotsText, DayName, Pieces;
    if days == [] {
      NoPieces();
    } else {
      PiecesDays(c, days[1..], wanted);
      var rest := DaysText(c, days[1..], wanted);
      if Listed(c, days[0], wanted) {
        var line := DayName(days[0]) + ":" + SlotsText(FreeSlots(c, days[0]));
        OneLine(days[0], FreeSlots(c, days[0]));
        PiecesCons(line, '\n', rest);
        assert DayText(c, days[0], wanted) == line + ['\n'];
      } else {
        assert DayText(c, days[0], wanted) + rest == rest;
      }
    }
  }

  lemma NamesDiffer(a: Day, b: Day)
    ensures DayName(a) == DayName(b) ==> a == b
  {
    DayRoundTrip(a);
    DayRoundTrip(b);
  }

  /** After the lines of these days have been read, exactly the listed ones have a text. */
  lemma {:induction false} TakeDays(board: Board, c: Calendar, days: seq<Day>, wanted: set<Day>)
    requires c.Shaped()
    ensures var b := TakeLines(board, DayLines(c, days, wanted));
            && b.parsed == board.parsed
            && forall day: Day ::
                 if day in days && Listed(c, day, wanted)
                 then DayName(day) in b.times && b.times[DayName(day)] == Rendered(day, FreeSlots(c, day))
                 else (DayName(day) in b.times <==> DayName(day) in board.times)
                      && (DayName(day) in b.times ==> b.times[DayName(day)] == board.times[DayName(day)])
    decreases days
  {
    hide FreeSlots, SlotsText, DayName, TakeLine, Rendered;
    if days != [] {
      var d := days[0];
      assert days == [d] + days[1..];
      if Listed(c, d, wanted) {
        TakeDay(board, d, FreeSlots(c, d));
        assert DayLines(c, days, wanted)[1..] == DayLines(c, days[1..], wanted);
        var next := board.(times := board.times[DayName(d) := Rendered(d, FreeSlots(c, d))]);
        forall day: Day | day != d ensures DayName(day) != DayName(d) {
          NamesDiffer(day, d);
        }
        TakeDays(next, c, days[1..], wanted);
      } else {
        assert DayLines(c, days, wanted) == DayLines(c, days[1..], wanted);
        TakeDays(board, c, days[1..], wanted);
      }
    }
  }

  function DayNames(days: seq<Day>): (r: seq<string>)
    ensures |r| == |days|
    ensures forall i :: 0 <= i < |days| ==> r[i] == DayName(days[i])
  {
    if days == [] then [] else [DayName(days[0])] + DayNames(days[1..])
  }

  lemma {:induction false} EntriesRendered(c: Calendar, days: seq<Day>, asked: seq<Day>, times: map<string, string>,
                                           names: set<string>)
    requires c.Shaped()
    requires forall day: Day :: DayName(day) in names <==> day in asked
    requires forall day: Day ::
               && (DayName(day) in times <==> (asked == [] || day in asked) && FreeSlots(c, day) != [])
               && (DayName(day) in times ==> times[DayName(day)] == Rendered(day, FreeSlots(c, day)))
    ensures DayEntries(DayNames(days), times, asked != [], names) == Entries(c, days, asked, Rendered)
  {
    hide FreeSlots, DayName, Rendered;
    if days != [] {
      assert DayNames(days)[1..] == DayNames(days[1..]);
      EntriesRendered(c, days[1..], asked, times, names);
    }
  }

  // ---------- asking for days ----------

  lemma OnePiece(s: string)
    requires ',' !in s && s != ""
    ensures Pieces(s, ',') == [s]
  {
    assert IndexOf(s, ',') == |s|;
    assert s[..|s|] == s;
  }

  lemma {:induction false} PiecesJoin(parts: seq<string>)
    requires parts != [] && forall p <- parts :: ',' !in p && p != ""
    ensures Pieces(Join(parts, ','), ',') == parts
  {
    hide Pieces;
    assert parts[0] in parts;
    if |parts| == 1 {
      OnePiece(parts[0]);
    } else {
      var rest := Join(parts[1..], ',');
      PiecesCons(parts[0], ',', rest);
      assert forall p <- parts[1..] :: p in parts;
      PiecesJoin(parts[1..]);
      assert Join(parts, ',') == parts[0] + [','] + rest;
    }
  }

  function Asked(asked: seq<Day>): set<Day> { set d <- asked }

  lemma AskedNames(asked: seq<Day>)
    ensures var names := Elements(Pieces(Join(DayNames(asked), ','), ','));
            forall day: Day :: DayName(day) in names <==> day in asked
    ensures Join(DayNames(asked), ',') != "" <==> asked != []
  {
    hide DayName;
    var names := DayNames(asked);
    if asked != [] {
      forall p | p in names ensures ',' !in p && p != "" {
        var i :| 0 <= i < |names| && names[i] == p;
        DayRoundTrip(asked[i]);
      }
      PiecesJoin(names);
      assert names[0] in names;
      forall day: Day ensures DayName(day) in names <==> day in asked {
        if DayName(day) in names {
          var i :| 0 <= i < |names| && names[i] == DayName(day);
          NamesDiffer(day, asked[i]);
        }
        if day in asked {
          var i :| 0 <= i < |asked| && asked[i] == day;
          assert names[i] == DayName(day);
        }
      }
    }
  }

  // ---------- the whole way ----------

  lemma HeaderRead(name: string, days: string)
    requires '\n' !in name
    ensures var text := "status:SUCCESS\nfacility:" + name + "\navailableTimeslots:\n" + days;
            && !IsError(text)
            && Pieces(RestAfter(text, '\n'), '\n') == ["facility:" + name, "availableTimeslots:"] + Pieces(days, '\n')
  {
    hide Pieces;
    var text := "status:SUCCESS\nfacility:" + name + "\navailableTimeslots:\n" + days;
    var l0, l1, l2 := "status:SUCCESS", "facility:" + name, "availableTimeslots:";
    var r2 := l2 + ['\n'] + days;
    var r1 := l1 + ['\n'] + r2;
    HeaderShape(name, days);
    IndexOfFirst(l0, '\n', r1);
    assert text[..14] == l0 && text[15..] == r1;
    assert l0[7] != "status:ERROR"[7];
    PiecesCons(l1, '\n', r2);
    PiecesCons(l2, '\n', days);
  }

  lemma HeaderShape(name: string, days: string)
    ensures "status:SUCCESS\nfacility:" + name + "\navailableTimeslots:\n" + days
            == "status:SUCCESS" + ['\n'] + ("facility:" + name + ['\n'] + ("availableTimeslots:" + ['\n'] + days))
  {
  }

  lemma HeaderTaken(name: string, rest: seq<string>)
    ensures TakeLines(Board(["Facility Availability"], map[]), ["facility:" + name, "availableTimeslots:"] + rest)
            == TakeLines(Board(["Facility Availability", "Facility: " + name], map[]), rest)
  {
    var l1, l2 := "facility:" + name, "availableTimeslots:";
    var all := [l1, l2] + rest;
    assert l1[..9] == "facility:" && l1[9..] == name;
    assert all[1..] == [l2] + rest && all[1..][1..] == rest;
    var b1 := TakeLine(Board(["Facility Availability"], map[]), l1);
    assert b1 == Board(["Facility Availability", "Facility: " + name], map[]);
    assert l2[0] != "facility:"[0];
    assert TakeLine(b1, l2) == b1;
    assert TakeLines(b1, all[1..]) == TakeLines(b1, rest);
  }

  /** The starts of all slots on the days asked for, or on all days, are printed without a
      minus sign. */
  predicate PlainDays(c: Calendar, asked: seq<Day>)
    requires c.Shaped()
  {
    forall day: Day :: asked == [] || day in asked ==> PlainStarts(FreeSlots(c, day))
  }

  lemma {:induction false} EntriesIff(c: Calendar, days: seq<Day>, asked: seq<Day>)
    requires c.Shaped()
    ensures |Entries(c, days, asked, Rendered)| == |Entries(c, days, asked, Show)|
    ensures Entries(c, days, asked, Rendered) == Entries(c, days, asked, Show)
            <==> forall day <- days :: asked == [] || day in asked ==> PlainStarts(FreeSlots(c, day))
  {
    hide FreeSlots, Rendered, Show, PlainStarts, DayName;
    if days != [] {
      var day, rest := days[0], days[1..];
      EntriesIff(c, rest, asked);
      SplitEqual(Entry(c, day, asked, Rendered), Entries(c, rest, asked, Rendered),
                 Entry(c, day, asked, Show), Entries(c, rest, asked, Show));
      if FreeSlots(c, day) == [] {
        NothingPlain();
      } else {
        RenderedIff(day, FreeSlots(c, day));
        SameSingle(Rendered(day, FreeSlots(c, day)), Show(day, FreeSlots(c, day)));
      }
      assert days == [day] + rest;
    }
  }

  lemma NothingPlain()
    ensures PlainStarts([])
  {
  }

  lemma SameSingle<T>(a: T, b: T)
    ensures [a] == [b] <==> a == b
  {
    assert [a] == [b] ==> [a][0] == [b][0];
  }

  /** What the client makes of the server's text, for all calendars: header, then the days in
      week order, as rendered. */
  lemma DisplayRendered(core: Core, name: string, asked: seq<Day>)
    requires core.Shaped() && FacilityIndex(core.facilities, name) < |core.facilities| && '\n' !in name
    ensures var c := core.facilities[FacilityIndex(core.facilities, name)].calendar;
            Parsed(AvailabilityText(core, name, Asked(asked)), Join(DayNames(asked), ','))
            == ["Facility Availability", "Facility: " + name] + Entries(c, WEEK, asked, Rendered)
  {
    hide FreeSlots, TakeLines, Pieces, IsError, RestAfter, DaysText, Entries, DayEntries, DayName, Elements,
         Join, Rendered,
         DayNames;
    var c := core.facilities[FacilityIndex(core.facilities, name)].calendar;
    var wanted := Asked(asked);
    var lines := DayLines(c, WEEK, wanted);
    var header := ["Facility Availability", "Facility: " + name];
    HeaderRead(name, DaysText(c, WEEK, wanted));
    PiecesDays(c, WEEK, wanted);
    HeaderTaken(name, lines);
    TakeDays(Board(header, map[]), c, WEEK, wanted);
    AskedNames(asked);
    WholeWeek();
    NoneAsked(asked);
    var b := TakeLines(Board(header, map[]), lines);
    EntriesRendered(c, WEEK, asked, b.times, Elements(Pieces(Join(DayNames(asked), ','), ',')));
  }

  /** The client shows exactly what the server has free iff no start on a shown day is printed
      with a minus sign. */
  lemma DisplayExact(core: Core, name: string, asked: seq<Day>)
    requires core.Shaped() && FacilityIndex(core.facilities, name) < |core.facilities| && '\n' !in name
    ensures var c := core.facilities[FacilityIndex(core.facilities, name)].calendar;
            Parsed(AvailabilityText(core, name, Asked(asked)), Join(DayNames(asked), ','))
            == ["Facility Availability", "Facility: " + name] + Entries(c, WEEK, asked, Show)
            <==> PlainDays(c, asked)
  {
    hide Parsed, AvailabilityText, Entries, Join, DayNames, PlainStarts, FreeSlots, Rendered, Show;
    var c := core.facilities[FacilityIndex(core.facilities, name)].calendar;
    var header := ["Facility Availability", "Facility: " + name];
    DisplayRendered(core, name, asked);
    EntriesIff(c, WEEK, asked);
    SplitEqual(header, Entries(c, WEEK, asked, Rendered), header, Entries(c, WEEK, asked, Show));
    WholeWeek();
  }

  lemma NoneAsked(asked: seq<Day>)
    ensures Asked(asked) == {} <==> asked == []
  {
    if asked != [] {
      assert asked[0] in Asked(asked);
    }
  }

  lemma WholeWeek()
    ensures DayNames(WEEK) == DAYS_OF_WEEK && forall day: Day :: day in WEEK
  {
    forall day: Day ensures day in WEEK {
      assert WEEK[Index(day)] == day;
    }
  }

  /** Any error text of the server is shown as its message, up to the first line end in it. */
  lemma ErrorShown(message: string, daysRequested: string)
    ensures Parsed(ErrorText(message), daysRequested) == ["Error", message[..IndexOf(message, '\n')]]
  {
    hide TakeLines, Pieces, DayEntries, Elements, IndexOf, ErrorText;
    FirstLine(message);
    MessageShown(message);
  }

  lemma FirstLine(message: string)
    ensures IsError(ErrorText(message)) && RestAfter(ErrorText(message), '\n') == "message:" + message
  {
    hide IndexOf;
    var l0, l1 := "status:ERROR", "message:" + message;
    ErrorShape(message);
    IndexOfFirst(l0, '\n', l1);
    assert (l0 + ['\n'] + l1)[..12] == l0 && (l0 + ['\n'] + l1)[13..] == l1;
  }

  lemma MessageShown(message: string)
    ensures ErrorMessage("message:" + message) == message[..IndexOf(message, '\n')]
  {
    hide IndexOf;
    var l1 := "message:" + message;
    IndexBehind("message:", message);
    var k := IndexOf(message, '\n');
    assert l1[..8 + k][..8] == "message:" && l1[..8 + k][8..] == message[..k];
  }

  lemma IndexBehind(head: string, s: string)
    requires '\n' !in head
    ensures IndexOf(head + s, '\n') == |head| + IndexOf(s, '\n')
  {
    var k := IndexOf(head + s, '\n');
    assert forall j :: 0 <= j < |head| ==> (head + s)[j] == head[j] && head[j] in head;
    assert forall j :: 0 <= j < |s| ==> (head + s)[|head| + j] == s[j];
    assert !(k < |head| + IndexOf(s, '\n')) && !(|head| + IndexOf(s, '\n') < k);
  }

  lemma ErrorShape(message: string)
    ensures ErrorText(message) == "status:ERROR" + ['\n'] + ("message:" + message)
  {
  }

  // ---------- the query ----------

  /** The data of the client's query. */
  function QueryData(name: string, daysRequested: string): string { "facility," + name + "," + daysRequested }

  lemma {:induction false} DayNamesWanted(asked: seq<Day>)
    ensures WantedDays(DayNames(asked)) == Some(Asked(asked))
  {
    hide ParseDay, DayName;
    if asked == [] {
      assert Asked(asked) == {};
    } else {
      DayRoundTrip(asked[0]);
      assert DayNames(asked)[1..] == DayNames(asked[1..]);
      DayNamesWanted(asked[1..]);
      assert asked == [asked[0]] + asked[1..];
      assert Asked(asked) == {asked[0]} + Asked(asked[1..]);
    }
  }

  lemma BareQuery(name: string)
    requires ',' !in name && name != ""
    ensures JavaSplit(QueryData(name, "")) == ["facility", name]
  {
    hide SplitAll, Join;
    var parts: seq<string> := ["facility", name, ""];
    SplitJoin(parts, ',');
    JoinThree("facility", name, "");
    assert "facility" + [','] + (name + [','] + "") == QueryData(name, "");
    assert QueryData(name, "")[8] == ',';
    assert parts[..2] == ["facility", name];
    assert DropTrailingEmpty(parts) == DropTrailingEmpty(parts[..2]) == ["facility", name];
  }

  lemma JoinThree(a: string, b: string, c: string)
    ensures Join([a, b, c], ',') == a + [','] + (b + [','] + c)
  {
    assert [a, b, c][1..] == [b, c] && [b, c][1..] == [c];
    assert Join([b, c], ',') == b + [','] + Join([c], ',');
  }

  lemma QuerySplits(name: string, asked: seq<Day>)
    requires ',' !in name && name != ""
    ensures JavaSplit(QueryData(name, Join(DayNames(asked), ','))) == ["facility", name] + DayNames(asked)
  {
    hide DayName, SplitAll, JavaSplit, QueryData;
    var names := DayNames(asked);
    if asked == [] {
      BareQuery(name);
    } else {
      var parts := ["facility", name] + names;
      forall p | p in parts ensures ',' !in p {
        if p in names {
          var i :| 0 <= i < |names| && names[i] == p;
          DayRoundTrip(asked[i]);
        }
      }
      assert parts[|parts| - 1] == DayName(asked[|asked| - 1]);
      JoinedQuery(name, names);
      JavaSplitJoin(parts);
    }
  }

  lemma JoinedQuery(name: string, names: seq<string>)
    requires names != []
    ensures Join(["facility", name] + names, ',') == QueryData(name, Join(names, ','))
  {
    var parts := ["facility", name] + names;
    assert parts[1..] == [name] + names && parts[1..][1..] == names;
    assert Join(parts[1..], ',') == name + [','] + Join(names, ',');
  }

  /** Asking for the availability of a facility on some days, or on all of them, shows for
      exactly those days what is free on them, iff the starts are printed without a minus
      sign. */
  lemma QueryDisplays(core: Core, name: string, asked: seq<Day>, requestID: int32, client: Endpoint, env: Env)
    requires core.Shaped() && FacilityIndex(core.facilities, name) < |core.facilities|
    requires '\n' !in name && ',' !in name && name != "" && name != "ALL"
    ensures var days := Join(DayNames(asked), ',');
            var c := core.facilities[FacilityIndex(core.facilities, name)].calendar;
            var r := Execute(core, RequestMessage(OpCode(READ), requestID, Some(QueryData(name, days))), client, env);
            && r.Executed? && r.core == core
            && (Parsed(r.response.data.value, days)
                == ["Facility Availability", "Facility: " + name] + Entries(c, WEEK, asked, Show)
                <==> PlainDays(c, asked))
  {
    hide Parsed, AvailabilityText, JavaSplit, WantedDays, Join, DayNames, Entries, PlainDays, BookingAnswer,
         RatingAnswer, FacilityNames;
    QuerySplits(name, asked);
    DayNamesWanted(asked);
    var parts := ["facility", name] + DayNames(asked);
    assert parts[2..] == DayNames(asked);
    DisplayExact(core, name, asked);
  }

  /** Asking about a facility nobody knows says so, whatever days are asked for. */
  lemma UnknownShown(core: Core, name: string, asked: seq<Day>, requestID: int32, client: Endpoint, env: Env)
    requires core.Shaped() && FacilityIndex(core.facilities, name) == |core.facilities|
    requires ',' !in name && name != "" && name != "ALL"
    ensures var days := Join(DayNames(asked), ',');
            var r := Execute(core, RequestMessage(OpCode(READ), requestID, Some(QueryData(name, days))), client, env);
            r.Executed? && r.core == core && Parsed(r.response.data.value, days) == ["Error", "Facility not found"]
  {
    hide Parsed, JavaSplit, WantedDays, Join, DayNames, BookingAnswer, RatingAnswer, FacilityNames, ErrorText, IndexOf;
    QuerySplits(name, asked);
    DayNamesWanted(asked);
    var parts := ["facility", name] + DayNames(asked);
    assert parts[2..] == DayNames(asked);
    ErrorShown("Facility not found", Join(DayNames(asked), ','));
    WholeLine("Facility not found");
  }

  lemma WholeLine(s: string)
    requires '\n' !in s
    ensures s[..IndexOf(s, '\n')] == s
  {
    assert IndexOf(s, '\n') == |s|;
  }
}
