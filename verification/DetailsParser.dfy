/** How the client takes answers apart that consist of labelled lines: bookings, deletions,
    registrations, ratings and the list of facilities. */
module DetailsParser {
  import opened Text
  import opened ResponseParser

  // ---------- what the parsers compute ----------

  /** A variable after a line that may set it. */
  function Set(v: string, line: string, tag: string): (r: string) { if tag <= line then line[|tag|..] else v }

  /** What a variable holds in the end that every line with this label sets. */
  function LastOf(lines: seq<string>, tag: string): (r: string) {
    if lines == [] then ""
    else Set(LastOf(lines[..|lines| - 1], tag), lines[|lines| - 1], tag)
  }

  /** The lines after the first. */
  function Body(response: string): (r: seq<string>) { Pieces(RestAfter(response, '\n'), '\n') }

  function ErrorShownFor(response: string): (r: seq<string>) { ["Error", ErrorMessage(RestAfter(response, '\n'))] }

  function BookingShown(response: string): (r: seq<string>) {
    if IsError(response) then ErrorShownFor(response)
    else
      var lines := Body(response);
      ["Booking Details", "Booking ID: " + LastOf(lines, "bookingID:"), "User: " + LastOf(lines, "user:"),
       "Facility: " + LastOf(lines, "facility:"), "Day: " + LastOf(lines, "day:"),
       "Start Time: " + LastOf(lines, "startTime:"), "End Time: " + LastOf(lines, "endTime:")]
  }

  function UpdateShown(response: string): (r: seq<string>) {
    if IsError(response) then ErrorShownFor(response)
    else
      var lines := Body(response);
      ["New Booking Details", "New Booking ID: " + LastOf(lines, "newBookingID:"), "User: " + LastOf(lines, "user:"),
       "Facility: " + LastOf(lines, "facility:"), "New Day: " + LastOf(lines, "day:"),
       "New Start Time: " + LastOf(lines, "startTime:"), "New End Time: " + LastOf(lines, "endTime:")]
  }

  function DeleteShown(response: string): (r: seq<string>) {
    if IsError(response) then ErrorShownFor(response)
    else
      var lines := Body(response);
      ["Booking Deleted", "Old Booking ID: " + LastOf(lines, "bookingID:"), "User: " + LastOf(lines, "user:")]
  }

  function MonitorShown(response: string): (r: seq<string>) {
    if IsError(response) then ErrorShownFor(response)
    else
      var lines := Body(response);
      ["Monitoring Registration", "Facility: " + LastOf(lines, "facility:"),
       "Duration: " + LastOf(lines, "interval:") + "s"]
  }

  function RateShown(response: string): (r: seq<string>) {
    if IsError(response) then ErrorShownFor(response)
    else
      var lines := Body(response);
      ["Rating Added", "User: " + LastOf(lines, "user:"), "Facility: " + LastOf(lines, "facility:"),
       "Rating: " + LastOf(lines, "rating:")]
  }

  function RatingShown(response: string): (r: seq<string>) {
    if IsError(response) then ErrorShownFor(response)
    else
      var lines := Body(response);
      ["Facility Rating", "Facility: " + LastOf(lines, "facility:"), "Rating: " + LastOf(lines, "rating:")]
  }

  function NonEmpty(parts: seq<string>): (r: seq<string>) {
    if parts == [] then [] else (if parts[0] == "" then [] else [parts[0]]) + NonEmpty(parts[1..])
  }

  function NamesIn(lines: seq<string>): (r: seq<string>) {
    if lines == [] then []
    else
      (if "facilityNames:" <= lines[0] then NonEmpty(Pieces(lines[0][14..], ',')) else []) + NamesIn(lines[1..])
  }

  function NamesShown(response: string): (r: seq<string>) {
    if IsError(response) then ErrorShownFor(response) else ["Facility Names"] + NamesIn(Body(response))
  }

  // ---------- the parsers ----------

  lemma NothingRead(lines: seq<string>)
    ensures [] + lines == lines && forall tag :: LastOf([], tag) == ""
  {
  }

  /** Reading one more line. */
  lemma LineRead(done: seq<string>, line: string)
    ensures forall tag :: LastOf(done + [line], tag) == Set(LastOf(done, tag), line, tag)
  {
    hide Set;
    assert (done + [line])[..|done|] == done;
  }

  /** No two labels begin alike, so a line carries at most one of them. */
  predicate Apart(labels: seq<string>) {
    forall i, j :: 0 <= i < j < |labels| ==> labels[i] != "" && labels[j] != "" && labels[i][0] != labels[j][0]
  }

  lemma OneLabel(line: string, labels: seq<string>, i: nat, j: nat)
    requires Apart(labels) && i < |labels| && j < |labels| && i != j && labels[i] <= line
    ensures !(labels[j] <= line)
  {
  }

  method ReadError(responseStream: Stream) returns (parsedResponse: seq<string>)
    modifies responseStream
    ensures parsedResponse == ["Error", ErrorMessage(old(responseStream.rest))]
  {
    hide IndexOf, RestAfter;
    var ok, line := responseStream.GetLine('\n');
    var errorMessage := if ok && "message:" <= line then line[8..] else "";
    parsedResponse := ["Error", errorMessage];
  }

  /** The loop all these parsers share: the first label a line begins with says which variable
      the rest of the line goes to. */
  method ReadFields(responseStream: Stream, labels: seq<string>) returns (values: seq<string>)
    requires Apart(labels)
    modifies responseStream
    ensures |values| == |labels|
    ensures forall k :: 0 <= k < |labels| ==> values[k] == LastOf(Pieces(old(responseStream.rest), '\n'), labels[k])
  {
    hide Pieces, RestAfter, LastOf, Set, Apart;
    values := seq(|labels|, _ => "");
    ghost var all := Pieces(responseStream.rest, '\n');
    ghost var done, left := [], all;
    NothingRead(left);
    PiecesFrom(responseStream.rest, '\n');
    var ok, line := responseStream.GetLine('\n');
    while ok
      invariant left == if ok then [line] + Pieces(responseStream.rest, '\n') else []
      invariant all == done + left && |values| == |labels|
      invariant forall k :: 0 <= k < |labels| ==> values[k] == LastOf(done, labels[k])
      decreases |left|
    {
      ghost var before := values;
      values := TakeField(line, labels, values);
      FieldsRead(done, line, labels, before, values);
      MoveOn(done, left);
      done, left := done + [line], left[1..];
      PiecesFrom(responseStream.rest, '\n');
      ok, line := responseStream.GetLine('\n');
    }
    assert done == all;
  }

  lemma FieldsRead(done: seq<string>, line: string, labels: seq<string>, before: seq<string>, after: seq<string>)
    requires |before| == |after| == |labels|
    requires forall k :: 0 <= k < |labels| ==> before[k] == LastOf(done, labels[k])
    requires forall k :: 0 <= k < |labels| ==> after[k] == Set(before[k], line, labels[k])
    ensures forall k :: 0 <= k < |labels| ==> after[k] == LastOf(done + [line], labels[k])
  {
    hide Set, LastOf;
    LineRead(done, line);
  }

  lemma MoveOn(done: seq<string>, left: seq<string>)
    requires left != []
    ensures done + left == done + [left[0]] + left[1..]
  {
    assert left == [left[0]] + left[1..];
  }

  method TakeField(line: string, labels: seq<string>, values: seq<string>) returns (values': seq<string>)
    requires Apart(labels) && |values| == |labels|
    ensures |values'| == |labels|
    ensures forall k :: 0 <= k < |labels| ==> values'[k] == Set(values[k], line, labels[k])
  {
    hide Apart;
    for i := 0 to |labels|
      invariant forall k :: 0 <= k < i ==> !(labels[k] <= line)
    {
      if labels[i] <= line {
        forall k | 0 <= k < |labels| && k != i ensures !(labels[k] <= line) {
          OneLabel(line, labels, i, k);
        }
        return values[i := line[|labels[i]|..]];
      }
    }
    return values;
  }

  method ParseQueryBookingResponse(response: string) returns (parsedResponse: seq<string>)
    ensures parsedResponse == BookingShown(response)
  {
    hide Pieces, RestAfter, IsError, ErrorMessage, LastOf;
    var responseStream := new Stream(response);
    var error := IsErrorResponse(responseStream);
    if error {
      parsedResponse := ReadError(responseStream);
    } else {
      var v := ReadFields(responseStream, ["bookingID:", "user:", "facility:", "day:", "startTime:", "endTime:"]);
      parsedResponse := ["Booking Details", "Booking ID: " + v[0], "User: " + v[1], "Facility: " + v[2],
                         "Day: " + v[3], "Start Time: " + v[4], "End Time: " + v[5]];
    }
  }

  method ParseUpdateBookingResponse(response: string) returns (parsedResponse: seq<string>)
    ensures parsedResponse == UpdateShown(response)
  {
    hide Pieces, RestAfter, IsError, ErrorMessage, LastOf;
    var responseStream := new Stream(response);
    var error := IsErrorResponse(responseStream);
    if error {
      parsedResponse := ReadError(responseStream);
    } else {
      var v := ReadFields(responseStream, ["oldBookingID:", "newBookingID:", "user:", "facility:", "day:",
                                          "startTime:", "endTime:"]);
      parsedResponse := ["New Booking Details", "New Booking ID: " + v[1], "User: " + v[2], "Facility: " + v[3],
                         "New Day: " + v[4], "New Start Time: " + v[5], "New End Time: " + v[6]];
    }
  }

  method ParseDeleteBookingResponse(response: string) returns (parsedResponse: seq<string>)
    ensures parsedResponse == DeleteShown(response)
  {
    hide Pieces, RestAfter, IsError, ErrorMessage, LastOf;
    var responseStream := new Stream(response);
    var error := IsErrorResponse(responseStream);
    if error {
      parsedResponse := ReadError(responseStream);
    } else {
      var v := ReadFields(responseStream, ["bookingID:", "user:"]);
      parsedResponse := ["Booking Deleted", "Old Booking ID: " + v[0], "User: " + v[1]];
    }
  }

  method ParseMonitorAvailabilityResponse(response: string) returns (parsedResponse: seq<string>)
    ensures parsedResponse == MonitorShown(response)
  {
    hide Pieces, RestAfter, IsError, ErrorMessage, LastOf;
    var responseStream := new Stream(response);
    var error := IsErrorResponse(responseStream);
    if error {
      parsedResponse := ReadError(responseStream);
    } else {
      var v := ReadFields(responseStream, ["facility:", "interval:"]);
      parsedResponse := ["Monitoring Registration", "Facility: " + v[0], "Duration: " + v[1] + "s"];
    }
  }

  method ParseRateFacilityResponse(response: string) returns (parsedResponse: seq<string>)
    ensures parsedResponse == RateShown(response)
  {
    hide Pieces, RestAfter, IsError, ErrorMessage, LastOf;
    var responseStream := new Stream(response);
    var error := IsErrorResponse(responseStream);
    if error {
      parsedResponse := ReadError(responseStream);
    } else {
      var v := ReadFields(responseStream, ["user:", "facility:", "rating:"]);
      parsedResponse := ["Rating Added", "User: " + v[0], "Facility: " + v[1], "Rating: " + v[2]];
    }
  }

  method ParseQueryRatingResponse(response: string) returns (parsedResponse: seq<string>)
    ensures parsedResponse == RatingShown(response)
  {
    hide Pieces, RestAfter, IsError, ErrorMessage, LastOf;
    var responseStream := new Stream(response);
    var error := IsErrorResponse(responseStream);
    if error {
      parsedResponse := ReadError(responseStream);
    } else {
      var v := ReadFields(responseStream, ["facility:", "rating:"]);
      parsedResponse := ["Facility Rating", "Facility: " + v[0], "Rating: " + v[1]];
    }
  }

  lemma NameStep(parsed: seq<string>, name: string, rest: seq<string>)
    ensures parsed + NonEmpty([name] + rest) == (if name == "" then parsed else parsed + [name]) + NonEmpty(rest)
  {
    assert ([name] + rest)[1..] == rest;
  }

  lemma NoName(parsed: seq<string>)
    ensures parsed + NonEmpty([]) == parsed
  {
  }

  /** The names in the text of one line. */
  method ReadNames(facilityNames: string, parsed: seq<string>) returns (parsedResponse: seq<string>)
    ensures parsedResponse == parsed + NonEmpty(Pieces(facilityNames, ','))
  {
    hide Pieces, RestAfter, NonEmpty;
    parsedResponse := parsed;
    var facilityNamesStream := new Stream(facilityNames);
    ghost var all := Pieces(facilityNames, ',');
    ghost var left := all;
    PiecesFrom(facilityNames, ',');
    var ok, facilityName := facilityNamesStream.GetLine(',');
    while ok
      invariant left == if ok then [facilityName] + Pieces(facilityNamesStream.rest, ',') else []
      invariant parsed + NonEmpty(all) == parsedResponse + NonEmpty(left)
      invariant fresh(facilityNamesStream)
      decreases |left|
    {
      NameStep(parsedResponse, facilityName, left[1..]);
      if facilityName != "" {
        parsedResponse := parsedResponse + [facilityName];
      }
      left := left[1..];
      PiecesFrom(facilityNamesStream.rest, ',');
      ok, facilityName := facilityNamesStream.GetLine(',');
    }
    NoName(parsedResponse);
  }

  lemma NamesStep(parsed: seq<string>, line: string, rest: seq<string>)
    ensures parsed + NamesIn([line] + rest)
            == (if "facilityNames:" <= line then parsed + NonEmpty(Pieces(line[14..], ',')) else parsed) + NamesIn(rest)
  {
    hide NonEmpty, Pieces;
    assert ([line] + rest)[1..] == rest;
  }

  lemma NoNames(parsed: seq<string>)
    ensures parsed + NamesIn([]) == parsed
  {
  }

  method ParseQueryFacilityNamesResponse(response: string) returns (parsedResponse: seq<string>)
    ensures parsedResponse == NamesShown(response)
  {
    hide Pieces, RestAfter, IsError, ErrorMessage, NonEmpty, NamesIn;
    var responseStream := new Stream(response);
    var error := IsErrorResponse(responseStream);
    if error {
      parsedResponse := ReadError(responseStream);
      return;
    }
    parsedResponse := ["Facility Names"];
    ghost var left := Body(response);
    PiecesFrom(responseStream.rest, '\n');
    var ok, line := responseStream.GetLine('\n');
    while ok
      invariant left == if ok then [line] + Pieces(responseStream.rest, '\n') else []
      invariant NamesShown(response) == parsedResponse + NamesIn(left)
      decreases |left|
    {
      NamesStep(parsedResponse, line, left[1..]);
      if "facilityNames:" <= line {
        parsedResponse := ReadNames(line[14..], parsedResponse);
      }
      left := left[1..];
      PiecesFrom(responseStream.rest, '\n');
      ok, line := responseStream.GetLine('\n');
    }
    NoNames(parsedResponse);
  }
}
