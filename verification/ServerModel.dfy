/** What the server does with one request, as a function of its state. Calls into code the
    repository does not contain (clock, random identifiers, texts of library exceptions,
    Double.parseDouble) appear as the fields of Env. */
module ServerModel {
  import opened Basics
  import opened TimeSlots
  import opened Bookings
  import opened Text
  import opened Searching
  import opened Messages

  datatype Endpoint = Endpoint(address: string, port: int)

  function UserInfo(client: Endpoint): string { client.address + ":" + PrintInt(client.port) }

  datatype Env = Env(now: int, uuid: string, exceptionText: string, parsedRating: Option<real>)

  datatype Rating = Rating(total: real, count: nat, average: real)

  function AddRating(r: Rating, rating: real): (r': Rating) {
    Rating(r.total + rating, r.count + 1, (r.total + rating) / ((r.count + 1) as real))
  }

  datatype Facility = Facility(name: string, calendar: Calendar, rating: Rating)

  datatype Monitor = Monitor(resourceName: string, requestID: int32, client: Endpoint,
                             createdTime: int, monitorInterval: int)

  /** Everything but the request history. */
  datatype Core = Core(facilities: seq<Facility>, monitors: seq<Monitor>) {
    predicate Shaped() { forall f <- facilities :: f.calendar.Shaped() }
  }

  /** Position of the first facility of this name, or their number. */
  function FacilityIndex(fs: seq<Facility>, name: string): (i: nat)
    ensures i <= |fs| && (i < |fs| ==> fs[i].name == name)
    ensures forall j :: 0 <= j < i ==> fs[j].name != name
  {
    if fs == [] || fs[0].name == name then 0 else 1 + FacilityIndex(fs[1..], name)
  }

  function SetCalendar(core: Core, i: nat, c: Calendar): (core': Core)
    requires i < |core.facilities|
  {
    core.(facilities := core.facilities[i := core.facilities[i].(calendar := c)])
  }

  // ---------- operation codes ----------

  datatype Operation = NONE | READ | WRITE | UPDATE | DELETE | MONITOR | ECHO | RATING

  function OpCode(op: Operation): (code: int32) {
    match op
    case NONE => -1
    case READ => 0
    case WRITE => 1
    case UPDATE => 2
    case DELETE => 3
    case MONITOR => 4
    case ECHO => 5
    case RATING => 6
  }

  function FromInt(code: int): (op: Operation)
    ensures op != NONE ==> OpCode(op) == code
  {
    if code == 0 then READ
    else if code == 1 then WRITE
    else if code == 2 then UPDATE
    else if code == 3 then DELETE
    else if code == 4 then MONITOR
    else if code == 5 then ECHO
    else if code == 6 then RATING
    else NONE
  }

  function Reply(op: Operation, m: RequestMessage, text: string): (r: RequestMessage)
    ensures r.requestID == m.requestID && r.data == Some(text)
  {
    RequestMessage(OpCode(op), m.requestID, Some(text))
  }

  function ErrorText(message: string): string { "status:ERROR\nmessage:" + message }

  // ---------- executing a request ----------

  /** Stopped: an exception nobody catches has ended the server. */
  datatype Executed = Stopped | Executed(core: Core, response: RequestMessage, updated: Option<string>)

  /** A well-formed state and a reply to m with some text in it. */
  predicate Answers(r: Executed, m: RequestMessage)
    requires r.Executed?
  {
    r.core.Shaped() && r.response.requestID == m.requestID && r.response.data.Some?
  }

  function Refuse(core: Core, op: Operation, m: RequestMessage, message: string): Executed {
    Executed(core, Reply(op, m, ErrorText(message)), None)
  }

  // ----- READ

  function StartText(slot: TimeSlot): string { Pad2(slot.startHour) + Pad2(slot.startMinute) }

  function EndText(slot: TimeSlot): string { Pad2(slot.endHour) + Pad2(slot.endMinute) }

  function SlotText(slot: TimeSlot): string { StartText(slot) + " - " + EndText(slot) }

  function SlotsText(slots: seq<TimeSlot>): (s: string) {
    if slots == [] then "" else SlotText(slots[0]) + "," + SlotsText(slots[1..])
  }

  /** The line for one day: absent when nothing is free or another day was asked for. */
  function DayText(c: Calendar, day: Day, wanted: set<Day>): (s: string)
    requires c.Shaped()
  {
    if (wanted != {} && day !in wanted) || FreeSlots(c, day) == [] then ""
    else DayName(day) + ":" + SlotsText(FreeSlots(c, day)) + "\n"
  }

  function DaysText(c: Calendar, days: seq<Day>, wanted: set<Day>): (s: string)
    requires c.Shaped()
  {
    if days == [] then "" else DayText(c, days[0], wanted) + DaysText(c, days[1..], wanted)
  }

  /** An empty set of wanted days stands for all of them. */
  function AvailabilityText(core: Core, name: string, wanted: set<Day>): (s: string)
    requires core.Shaped()
  {
    var i := FacilityIndex(core.facilities, name);
    if i == |core.facilities| then ErrorText("Facility not found")
    else "status:SUCCESS\nfacility:" + name + "\navailableTimeslots:\n"
         + DaysText(core.facilities[i].calendar, WEEK, wanted)
  }

  function FacilityNames(fs: seq<Facility>): (s: string) {
    if fs == [] then "" else fs[0].name + "," + FacilityNames(fs[1..])
  }

  function BookingText(b: Booking, facility: string): string {
    "status:SUCCESS\nbookingID:" + b.confirmationID + "\nuser:" + b.userInfo + "\nfacility:" + facility
    + "\nday:" + DayName(b.timeSlot.day) + "\nstartTime:" + StartText(b.timeSlot)
    + "\nendTime:" + EndText(b.timeSlot) + "\n"
  }

  /** The first facility that knows the booking answers. */
  function BookingAnswer(fs: seq<Facility>, id: string): (s: string) {
    if fs == [] then ErrorText("Booking not found")
    else
      match BookingInfo(fs[0].calendar, id)
      case Some(b) => BookingText(b, fs[0].name)
      case None => BookingAnswer(fs[1..], id)
  }

  /** One decimal, halves rounded away from zero. */
  function Tenths(r: real): (s: string) {
    if r < 0.0 then "-" + Magnitude(-r) else Magnitude(r)
  }

  function Magnitude(r: real): (s: string) {
    var n := (r * 10.0 + 0.5).Floor;
    PrintInt(n / 10) + "." + PrintInt(n % 10)
  }

  function RatingAnswer(core: Core, name: string): (s: string) {
    var i := FacilityIndex(core.facilities, name);
    if i == |core.facilities| then ErrorText("Facility not found")
    else "status:SUCCESS\nfacility:" + name + "\nrating:" + Tenths(core.facilities[i].rating.average)
  }

  /** The days named in parts; None when one of the names is not a day. */
  function WantedDays(parts: seq<string>): (r: Option<set<Day>>) {
    if parts == [] then Some({})
    else if ParseDay(parts[0]).None? || WantedDays(parts[1..]).None? then None
    else Some({ParseDay(parts[0]).value} + WantedDays(parts[1..]).value)
  }

  /** READ is not guarded by a handler: null data, a list without parts and an unknown day
      name end the server. */
  function ExecuteRead(core: Core, m: RequestMessage): (r: Executed)
    requires core.Shaped()
    ensures r.Executed? ==> r.core == core && r.updated == None && Answers(r, m)
  {
    if m.data.None? then Stopped
    else
      var parts := JavaSplit(m.data.value);
      if |parts| == 1 then Refuse(core, READ, m, "Invalid request format")
      else if |parts| == 0 then Stopped
      else if parts[0] == "facility" then
        if parts[1] == "ALL" then
          Executed(core, Reply(READ, m, "status:SUCCESS\nfacilityNames:" + FacilityNames(core.facilities)), None)
        else
          match WantedDays(parts[2..])
          case None => Stopped
          case Some(wanted) => Executed(core, Reply(READ, m, AvailabilityText(core, parts[1], wanted)), None)
      else if parts[0] == "booking" then
        Executed(core, Reply(READ, m, BookingAnswer(core.facilities, parts[1])), None)
      else if parts[0] == "rating" then
        Executed(core, Reply(READ, m, RatingAnswer(core, parts[1])), None)
      else Refuse(core, READ, m, "Invalid request format")
  }

  // ----- WRITE

  datatype BookingDetails = BookingDetails(previous: string, facilityName: string, slot: TimeSlot)

  /** Six fields from position at on: name, day, start and end. */
  function ParseDetails(parts: seq<string>, at: nat, dayName: string, previous: string): (r: Option<BookingDetails>)
    requires at + 6 <= |parts|
  {
    var day, h0, m0, h1, m1 := ParseDay(dayName), ParseInt(parts[at + 2]), ParseInt(parts[at + 3]),
                               ParseInt(parts[at + 4]), ParseInt(parts[at + 5]);
    if day.None? || h0.None? || m0.None? || h1.None? || m1.None? then None
    else Some(BookingDetails(previous, parts[at], TimeSlot(h0.value, m0.value, h1.value, m1.value, day.value)))
  }

  function ParseBooking(text: string): (r: Option<BookingDetails>) {
    var parts := JavaSplit(text);
    if |parts| < 6 then None else ParseDetails(parts, 0, parts[1], "")
  }

  function BookedText(id: string, user: string, facility: string, slot: TimeSlot): string {
    "status:SUCCESS\nbookingID:" + id + "\nuser:" + user + "\nfacility:" + facility
    + "\nday:" + DayName(slot.day) + "\nstartTime:" + StartText(slot) + "\nendTime:" + EndText(slot)
  }

  function ExecuteWrite(core: Core, m: RequestMessage, client: Endpoint, env: Env): (r: Executed)
    requires core.Shaped()
    ensures r.Executed? && Answers(r, m)
  {
    if m.data.None? || ParseBooking(m.data.value).None? then Refuse(core, WRITE, m, env.exceptionText)
    else
      var b := ParseBooking(m.data.value).value;
      var i := FacilityIndex(core.facilities, b.facilityName);
      if i == |core.facilities| then Refuse(core, WRITE, m, "Facility not found")
      else
        var c := core.facilities[i].calendar;
        if !IsAvailable(c, b.slot) then
          Refuse(core, WRITE, m, "Facility not available at the requested time").(updated := Some(b.facilityName))
        else
          Executed(SetCalendar(core, i, Book(c, env.uuid, UserInfo(client), b.slot)),
                   Reply(WRITE, m, BookedText(env.uuid, UserInfo(client), b.facilityName, b.slot)),
                   Some(b.facilityName))
  }

  // ----- UPDATE

  predicate Blank(s: string) {
    forall i :: 0 <= i < |s| ==> s[i] <= ' '
  }

  datatype ParsedUpdate = BadUpdate(message: string) | GoodUpdate(details: BookingDetails)

  function ParseUpdate(text: string, env: Env): (r: ParsedUpdate) {
    if Blank(text) then BadUpdate("Booking details string cannot be null or empty")
    else
      var parts := JavaSplit(text);
      if |parts| != 8 then
        BadUpdate("Invalid booking details format. Expected 12 comma-separated values, found: " + PrintInt(|parts|))
      else
        match ParseDetails(parts, 2, Upper(parts[3]), parts[1])
        case None => BadUpdate("Error parsing booking details: " + env.exceptionText)
        case Some(d) => GoodUpdate(d)
  }

  function UpdatedText(previous: string, id: string, user: string, facility: string, slot: TimeSlot): string {
    "status:SUCCESS\noldBookingID:" + previous + "\nnewBookingID:" + id + "\nuser:" + user + "\nfacility:" + facility
    + "\nday:" + DayName(slot.day) + "\nstartTime:" + StartText(slot) + "\nendTime:" + EndText(slot) + "\n"
  }

  /** The ID a removal reports; the formatter prints a missing one as null. */
  function RemovedID(c: Calendar, id: string, user: string): string {
    if Has(c, id, user) then id else "null"
  }

  function UpdateBooking(core: Core, m: RequestMessage, b: BookingDetails, client: Endpoint, env: Env): (r: Executed)
    requires core.Shaped()
    ensures r.Executed? && Answers(r, m)
  {
    var i := FacilityIndex(core.facilities, b.facilityName);
    if i == |core.facilities| then Refuse(core, UPDATE, m, "Facility not found")
    else
      var c := core.facilities[i].calendar;
      if !IsAvailable(c, b.slot) then
        Refuse(core, WRITE, m, "Facility not available at the requested time").(updated := Some(b.facilityName))
      else
        var user := UserInfo(client);
        var c' := Book(Remove(c, b.previous, user), env.uuid, user, b.slot);
        Executed(SetCalendar(core, i, c'),
                 Reply(UPDATE, m, UpdatedText(RemovedID(c, b.previous, user), env.uuid, user, b.facilityName, b.slot)),
                 Some(b.facilityName))
  }

  function RatedText(user: string, facility: string, rating: real): string {
    "status:SUCCESS\nuser:" + user + "\nfacility:" + facility + "\nrating:" + Tenths(rating)
  }

  /** A rating without its parts, that is no number, or for an unknown facility throws. */
  function RateFacility(core: Core, m: RequestMessage, parts: seq<string>, client: Endpoint, env: Env): (r: Executed)
    requires core.Shaped()
    ensures r.Executed? && Answers(r, m)
  {
    if |parts| < 3 || env.parsedRating.None? || FacilityIndex(core.facilities, parts[1]) == |core.facilities| then
      Refuse(core, UPDATE, m, env.exceptionText)
    else
      var i := FacilityIndex(core.facilities, parts[1]);
      var f := core.facilities[i];
      var rated := f.(rating := AddRating(f.rating, env.parsedRating.value));
      Executed(core.(facilities := core.facilities[i := rated]),
               Reply(UPDATE, m, RatedText(UserInfo(client), parts[1], env.parsedRating.value)), None)
  }

  function ExecuteUpdate(core: Core, m: RequestMessage, client: Endpoint, env: Env): (r: Executed)
    requires core.Shaped()
    ensures r.Executed? && Answers(r, m)
  {
    if m.data.None? || JavaSplit(m.data.value) == [] then Refuse(core, UPDATE, m, env.exceptionText)
    else
      var parts := JavaSplit(m.data.value);
      if parts[0] == "booking" then
        match ParseUpdate(m.data.value, env)
        case BadUpdate(message) => Refuse(core, UPDATE, m, message)
        case GoodUpdate(b) => UpdateBooking(core, m, b, client, env)
      else if parts[0] == "rating" then RateFacility(core, m, parts, client, env)
      else Refuse(core, UPDATE, m, "Invalid update type")
  }

  // ----- DELETE

  function ExecuteDelete(core: Core, m: RequestMessage, client: Endpoint, env: Env): (r: Executed)
    requires core.Shaped()
    ensures r.Executed? && Answers(r, m)
  {
    if m.data.None? || |JavaSplit(m.data.value)| < 2 then Refuse(core, DELETE, m, env.exceptionText)
    else
      var parts := JavaSplit(m.data.value);
      var i := FacilityIndex(core.facilities, parts[1]);
      if i == |core.facilities| then Refuse(core, DELETE, m, "Facility not found")
      else
        var c, user := core.facilities[i].calendar, UserInfo(client);
        Executed(SetCalendar(core, i, Remove(c, parts[0], user)),
                 Reply(DELETE, m, "status:SUCCESS\nbookingID:" + RemovedID(c, parts[0], user) + "\nuser:" + user),
                 Some(parts[1]))
  }

  // ----- MONITOR

  function ExecuteMonitor(core: Core, m: RequestMessage, client: Endpoint, env: Env): (r: Executed)
    requires core.Shaped()
    ensures r.Executed? && Answers(r, m)
  {
    if m.data.None? || JavaSplit(m.data.value) == [] then Refuse(core, MONITOR, m, env.exceptionText)
    else
      var parts := JavaSplit(m.data.value);
      if |parts| == 1 then Refuse(core, READ, m, "Invalid request format")
      else if parts[0] != "register" then Refuse(core, MONITOR, m, "Invalid request format")
      else if |parts| < 3 || ParseInt(parts[2]).None? then Refuse(core, MONITOR, m, env.exceptionText)
      else if FacilityIndex(core.facilities, parts[1]) == |core.facilities| then
        Refuse(core, READ, m, "Invalid facilityName provided")
      else
        var interval := ParseInt(parts[2]).value;
        Executed(core.(monitors := core.monitors + [Monitor(parts[1], m.requestID, client, env.now, interval)]),
                 Reply(MONITOR, m, "status:SUCCESS\nfacility:" + parts[1] + "\ninterval:" + PrintInt(interval)), None)
  }

  // ----- all operations

  /** The switch over the operation of a request that is not an ECHO. */
  function Execute(core: Core, m: RequestMessage, client: Endpoint, env: Env): (r: Executed)
    requires core.Shaped()
    ensures r.Executed? ==> Answers(r, m)
  {
    hide ExecuteRead, ExecuteWrite, ExecuteUpdate, ExecuteDelete, ExecuteMonitor;
    match FromInt(m.requestType)
    case READ => ExecuteRead(core, m)
    case WRITE => ExecuteWrite(core, m, client, env)
    case UPDATE => ExecuteUpdate(core, m, client, env)
    case DELETE => ExecuteDelete(core, m, client, env)
    case MONITOR => ExecuteMonitor(core, m, client, env)
    case _ => Refuse(core, NONE, m, "Unknown operation")
  }

  // ---------- monitors ----------

  /** A 32-bit product as Java computes it. */
  function Wrap32(n: int): (w: int32) {
    (n + 0x8000_0000) % 0x1_0000_0000 - 0x8000_0000
  }

  predicate Expired(mon: Monitor, now: int) { now - mon.createdTime > Wrap32(mon.monitorInterval * 1000) }

  function Unexpired(ms: seq<Monitor>, now: int): (r: seq<Monitor>)
    ensures forall m :: m in r <==> m in ms && !Expired(m, now)
  {
    if ms == [] then []
    else if Expired(ms[0], now) then Unexpired(ms[1..], now)
    else
      assert ms == [ms[0]] + ms[1..];
      [ms[0]] + Unexpired(ms[1..], now)
  }

  datatype Notice = Notice(to: Endpoint, text: string)

  /** The raw text of a notification, which is not a serialized message. */
  function NoticeText(availability: string): string { "RequestMessage: 0 0 " + availability }

  function NoticesFor(ms: seq<Monitor>, name: string, text: string): (r: seq<Notice>) {
    if ms == [] then []
    else if ms[0].resourceName != name then NoticesFor(ms[1..], name, text)
    else [Notice(ms[0].client, NoticeText(text))] + NoticesFor(ms[1..], name, text)
  }

  predicate Notifies(m: RequestMessage) { FromInt(m.requestType) in {WRITE, UPDATE, DELETE} }

  datatype Processed = Crashed | Processed(core: Core, response: RequestMessage, notices: seq<Notice>)

  /** A request executed and, if it touched a facility's bookings, announced. */
  function Process(core: Core, m: RequestMessage, client: Endpoint, env: Env): (r: Processed)
    requires core.Shaped()
    ensures r.Processed? ==> r.core.Shaped() && r.response.requestID == m.requestID && r.response.data.Some?
  {
    hide Execute;
    match Execute(core, m, client, env)
    case Stopped => Crashed
    case Executed(core1, response, updated) =>
      if updated.None? || !Notifies(m) then Processed(core1, response, [])
      else
        var core2 := core1.(monitors := Unexpired(core1.monitors, env.now));
        var text := AvailabilityText(core2, updated.value, {});
        Processed(core2, response,
                  if text == "" || Contains(text, "status:ERROR") then []
                  else NoticesFor(core2.monitors, updated.value, text))
  }

  // ---------- the request handler ----------

  datatype RequestInfo = RequestInfo(message: RequestMessage, client: Endpoint, response: RequestMessage)

  datatype ServerState = ServerState(core: Core, history: seq<RequestInfo>)

  /** Same request ID, address and port. */
  predicate SameKey(r: RequestInfo, id: int32, client: Endpoint) {
    r.message.requestID == id && r.client == client
  }

  /** Position of the first recorded request with this key, or the length of the history. */
  function Recorded(history: seq<RequestInfo>, id: int32, client: Endpoint): (i: nat)
    ensures i <= |history| && (i < |history| ==> SameKey(history[i], id, client))
    ensures forall j :: 0 <= j < i ==> !SameKey(history[j], id, client)
  {
    if history == [] || SameKey(history[0], id, client) then 0 else 1 + Recorded(history[1..], id, client)
  }

  const BAD_REQUEST: RequestMessage := RequestMessage(0, 0, Some("status:ERROR\nmessage:Bad request"))

  datatype Handled = Halted | Handled(st: ServerState, response: RequestMessage, notices: seq<Notice>)

  /** handleRequest for a datagram that decodes to m, or to nothing. */
  function Handle(st: ServerState, checkHistory: bool, m: Option<RequestMessage>, client: Endpoint, env: Env)
    : (r: Handled)
    requires st.core.Shaped()
  {
    if m.None? then Handled(st, BAD_REQUEST, [])
    else if FromInt(m.value.requestType) == ECHO then Handled(st, m.value, [])
    else
      var i := Recorded(st.history, m.value.requestID, client);
      if checkHistory && i < |st.history| then Handled(st, st.history[i].response, [])
      else
        match Process(st.core, m.value, client, env)
        case Crashed => Halted
        case Processed(core, response, notices) =>
          Handled(ServerState(core, st.history + [RequestInfo(m.value, client, response)]), response, notices)
  }
}
