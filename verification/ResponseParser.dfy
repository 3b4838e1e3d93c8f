/** How the client takes an answer about availability apart. */
module ResponseParser {
  import opened Text

  const DAYS_OF_WEEK: seq<string> := ["MONDAY", "TUESDAY", "WEDNESDAY", "THURSDAY", "FRIDAY", "SATURDAY", "SUNDAY"]

  // ---------- what the parser computes ----------

  /** What one getline leaves in the stream. */
  function RestAfter(s: string, c: char): (r: string)
    ensures s != "" ==> |r| < |s|
  {
    var i := IndexOf(s, c);
    if i == |s| then "" else s[i + 1..]
  }

  /** Everything getline delivers until the stream is empty. */
  function Pieces(s: string, c: char): (r: seq<string>)
    decreases |s|
  {
    if s == "" then [] else [s[..IndexOf(s, c)]] + Pieces(RestAfter(s, c), c)
  }

  /** The first dash becomes "to". */
  function Dash(piece: string): (r: string) {
    var i := IndexOf(piece, '-');
    if i == |piece| then piece else piece[..i] + "to" + piece[i + 1..]
  }

  function Spaced(pieces: seq<string>): (r: string) {
    if pieces == [] then ""
    else (if pieces[0] == "" then "" else Dash(pieces[0]) + ", ") + Spaced(pieces[1..])
  }

  function Trimmed(s: string): (r: string) { if |s| > 2 then s[..|s| - 2] else s }

  /** What is shown so far, and the text for each day met. */
  datatype Board = Board(parsed: seq<string>, times: map<string, string>)

  function TakeLine(board: Board, line: string): (r: Board) {
    if "facility:" <= line then board.(parsed := board.parsed + ["Facility: " + line[9..]])
    else if "availableTimeslots:" <= line || line == "" then board
    else
      var day := line[..IndexOf(line, ':')];
      board.(times := board.times[day := Trimmed(day + ": " + Spaced(Pieces(RestAfter(line, ':'), ',')))])
  }

  function TakeLines(board: Board, lines: seq<string>): (r: Board)
    decreases lines
  {
    if lines == [] then board else TakeLines(TakeLine(board, lines[0]), lines[1..])
  }

  /** The lines for these days: those met, and when days were asked for the asked ones only,
      closed if they were not met. */
  function DayEntries(days: seq<string>, times: map<string, string>, filter: bool, asked: set<string>)
    : (r: seq<string>)
  {
    if days == [] then []
    else
      var day := days[0];
      (if filter && day !in asked then []
       else if day in times then [times[day]]
       else if filter then [day + ": Closed"] else [])
      + DayEntries(days[1..], times, filter, asked)
  }

  predicate IsError(response: string) {
    response != "" && "status:ERROR" <= response[..IndexOf(response, '\n')]
  }

  function ErrorMessage(rest: string): (r: string) {
    var line := rest[..IndexOf(rest, '\n')];
    if rest != "" && "message:" <= line then line[8..] else ""
  }

  function Elements(s: seq<string>): (r: set<string>) { set x <- s }

  function Parsed(response: string, daysRequested: string): (r: seq<string>) {
    var rest := RestAfter(response, '\n');
    if IsError(response) then ["Error", ErrorMessage(rest)]
    else
      var board := TakeLines(Board(["Facility Availability"], map[]), Pieces(rest, '\n'));
      board.parsed + DayEntries(DAYS_OF_WEEK, board.times, daysRequested != "", Elements(Pieces(daysRequested, ',')))
  }

  // ---------- the parser ----------

  /** A stream over a string; getline takes the next piece off it. */
  class Stream {
    var rest: string

    constructor (s: string)
      ensures rest == s
    {
      rest := s;
    }

    method GetLine(delimiter: char) returns (ok: bool, piece: string)
      modifies this
      ensures ok <==> old(rest) != ""
      ensures ok ==> piece == old(rest)[..IndexOf(old(rest), delimiter)] && rest == RestAfter(old(rest), delimiter)
      ensures !ok ==> piece == "" && rest == old(rest)
    {
      ok, piece := rest != "", "";
      if ok {
        var i := IndexOf(rest, delimiter);
        piece := rest[..i];
        rest := if i == |rest| then "" else rest[i + 1..];
      }
    }
  }

  method IsErrorResponse(responseStream: Stream) returns (error: bool)
    modifies responseStream
    ensures error <==> IsError(old(responseStream.rest))
    ensures responseStream.rest == RestAfter(old(responseStream.rest), '\n')
  {
    var ok, line := responseStream.GetLine('\n');
    error := ok && "status:ERROR" <= line;
  }

  lemma PiecesFrom(s: string, c: char)
    ensures Pieces(s, c) == if s == "" then [] else [s[..IndexOf(s, c)]] + Pieces(RestAfter(s, c), c)
  {
  }

  lemma SpacedStep(done: string, piece: string, rest: seq<string>)
    ensures done + Spaced([piece] + rest) == (if piece == "" then done else done + (Dash(piece) + ", ")) + Spaced(rest)
  {
    hide Dash;
    assert ([piece] + rest)[1..] == rest;
  }

  lemma SpacedEnd(done: string)
    ensures done + Spaced([]) == done
  {
  }

  lemma EntriesStep(done: seq<string>, i: nat, times: map<string, string>, filter: bool, asked: set<string>)
    requires i < 7
    ensures done + DayEntries(DAYS_OF_WEEK[i..], times, filter, asked)
            == (done + (if filter && DAYS_OF_WEEK[i] !in asked then []
                        else if DAYS_OF_WEEK[i] in times then [times[DAYS_OF_WEEK[i]]]
                        else if filter then [DAYS_OF_WEEK[i] + ": Closed"] else []))
               + DayEntries(DAYS_OF_WEEK[i + 1..], times, filter, asked)
  {
    assert DAYS_OF_WEEK[i..][1..] == DAYS_OF_WEEK[i + 1..];
  }

  lemma EntriesEnd(times: map<string, string>, filter: bool, asked: set<string>)
    ensures DayEntries(DAYS_OF_WEEK[7..], times, filter, asked) == []
    ensures DAYS_OF_WEEK[0..] == DAYS_OF_WEEK
  {
  }

  method ParseTimeslots(day: string, lineStream: Stream) returns (formattedTimeslots: string)
    modifies lineStream
    ensures formattedTimeslots == Trimmed(day + ": " + Spaced(Pieces(old(lineStream.rest), ',')))
  {
    hide Spaced, Pieces, RestAfter;
    formattedTimeslots := day + ": ";
    PiecesFrom(lineStream.rest, ',');
    ghost var all := Pieces(lineStream.rest, ',');
    var ok, timeslot := lineStream.GetLine(',');
    ghost var left := if ok then [timeslot] + Pieces(lineStream.rest, ',') else [];
    while ok
      invariant ok ==> left == [timeslot] + Pieces(lineStream.rest, ',')
      invariant !ok ==> left == []
      invariant day + ": " + Spaced(all) == formattedTimeslots + Spaced(left)
      decreases |left|
    {
      SpacedStep(formattedTimeslots, timeslot, left[1..]);
      if timeslot != "" {
        var dashPos := IndexOf(timeslot, '-');
        if dashPos != |timeslot| {
          timeslot := timeslot[..dashPos] + "to" + timeslot[dashPos + 1..];
        }
        formattedTimeslots := formattedTimeslots + (timeslot + ", ");
      }
      left := left[1..];
      PiecesFrom(lineStream.rest, ',');
      ok, timeslot := lineStream.GetLine(',');
    }
    SpacedEnd(formattedTimeslots);
    if |formattedTimeslots| > 2 {
      formattedTimeslots := formattedTimeslots[..|formattedTimeslots| - 2];
    }
  }

  method ParseQueryAvailabilityResponse(response: string, daysRequested: string) returns (parsedResponse: seq<string>)
    ensures parsedResponse == Parsed(response, daysRequested)
  {
    hide TakeLines, IsError, DayEntries, Pieces, Elements, RestAfter, ErrorMessage;
    parsedResponse := [];
    var responseStream := new Stream(response);
    var filterDays := daysRequested != "";
    var requestedDaysSet: set<string> := {};
    if filterDays {
      requestedDaysSet := ReadDays(daysRequested);
    }
    NoDays();
    assert requestedDaysSet == Elements(Pieces(daysRequested, ','));
    var error := IsErrorResponse(responseStream);
    if error {
      ghost var rest := responseStream.rest;
      var ok, line := responseStream.GetLine('\n');
      var errorMessage := if ok && "message:" <= line then line[8..] else "";
      parsedResponse := parsedResponse + ["Error"];
      parsedResponse := parsedResponse + [errorMessage];
      MessageLine(rest);
    } else {
      var times: map<string, string>;
      parsedResponse, times := ReadLines(responseStream);
      parsedResponse := ListDays(parsedResponse, times, filterDays, requestedDaysSet);
    }
  }

  method ListDays(parsed: seq<string>, availabilityMap: map<string, string>, filterDays: bool,
                  requestedDaysSet: set<string>)
    returns (parsedResponse: seq<string>)
    ensures parsedResponse == parsed + DayEntries(DAYS_OF_WEEK, availabilityMap, filterDays, requestedDaysSet)
  {
    hide DayEntries;
    parsedResponse := parsed;
    EntriesEnd(availabilityMap, filterDays, requestedDaysSet);
    ghost var all := parsed + DayEntries(DAYS_OF_WEEK, availabilityMap, filterDays, requestedDaysSet);
    for i := 0 to |DAYS_OF_WEEK|
      invariant all == parsedResponse + DayEntries(DAYS_OF_WEEK[i..], availabilityMap, filterDays, requestedDaysSet)
    {
      EntriesStep(parsedResponse, i, availabilityMap, filterDays, requestedDaysSet);
      var day := DAYS_OF_WEEK[i];
      if filterDays {
        if day in requestedDaysSet {
          if day in availabilityMap {
            parsedResponse := parsedResponse + [availabilityMap[day]];
          } else {
            parsedResponse := parsedResponse + [day + ": Closed"];
          }
        }
      } else if day in availabilityMap {
        parsedResponse := parsedResponse + [availabilityMap[day]];
      }
    }
  }

  lemma NoDays()
    ensures Elements(Pieces("", ',')) == {}
  {
  }

  lemma MessageLine(rest: string)
    ensures ErrorMessage(rest)
            == if rest != "" && "message:" <= rest[..IndexOf(rest, '\n')] then rest[..IndexOf(rest, '\n')][8..] else ""
  {
  }

  method ReadDays(daysRequested: string) returns (requested: set<string>)
    ensures requested == Elements(Pieces(daysRequested, ','))
  {
    requested := {};
    var daysStream := new Stream(daysRequested);
    ghost var all := Pieces(daysRequested, ',');
    var ok, dayToken := daysStream.GetLine(',');
    ghost var left := if ok then [dayToken] + Pieces(daysStream.rest, ',') else [];
    while ok
      invariant ok ==> left == [dayToken] + Pieces(daysStream.rest, ',')
      invariant !ok ==> left == []
      invariant Elements(all) == requested + Elements(left)
      invariant fresh(daysStream)
      decreases |left|
    {
      requested := requested + {dayToken};
      assert left == [left[0]] + left[1..];
      left := left[1..];
      ok, dayToken := daysStream.GetLine(',');
    }
  }

  method ReadLines(responseStream: Stream) returns (parsedResponse: seq<string>, availabilityMap: map<string, string>)
    modifies responseStream
    ensures Board(parsedResponse, availabilityMap)
         == TakeLines(Board(["Facility Availability"], map[]), Pieces(old(responseStream.rest), '\n'))
  {
    hide Spaced, Trimmed;
    parsedResponse, availabilityMap := ["Facility Availability"], map[];
    ghost var all := Pieces(responseStream.rest, '\n');
    var ok, line := responseStream.GetLine('\n');
    ghost var left := if ok then [line] + Pieces(responseStream.rest, '\n') else [];
    while ok
      invariant ok ==> left == [line] + Pieces(responseStream.rest, '\n')
      invariant !ok ==> left == []
      invariant TakeLines(Board(["Facility Availability"], map[]), all)
             == TakeLines(Board(parsedResponse, availabilityMap), left)
      decreases |left|
    {
      ghost var board := Board(parsedResponse, availabilityMap);
      if "facility:" <= line {
        parsedResponse := parsedResponse + ["Facility: " + line[9..]];
      } else if !("availableTimeslots:" <= line) {
        var lineStream := new Stream(line);
        var found, day := lineStream.GetLine(':');
        if found {
          var formattedTimeslots := ParseTimeslots(day, lineStream);
          availabilityMap := availabilityMap[day := formattedTimeslots];
        }
      }
      assert Board(parsedResponse, availabilityMap) == TakeLine(board, left[0]);
      left := left[1..];
      ok, line := responseStream.GetLine('\n');
    }
  }
}
