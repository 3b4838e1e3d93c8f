# Verification of the facility booking system

The system lets C++ clients query, book, move, delete, monitor and rate facilities on a Java
server over UDP. This project models its protocol, its bookings, its wire format and its
texts in Dafny 4.11 and proves what they promise. `dafny verify dfyconfig.toml` checks
everything.

## How it is built

Where the program computes by expressions, the model is functions. Where it updates objects,
arrays or buffers in place, the model is classes and methods with the same branches and loops,
each proved equal to a function of the old state, and the theorems are about those functions.

| files | content |
|---|---|
| `Basics`, `Primitives`, `Parity`, `JavaBuffers` | bytes, 32- and 64-bit big-endian numbers, strings, both parity loops, the Java buffer and reader |
| `ObjectGraph`, `GraphCodec`, `GraphRoundTrip`, `JavaCodec` | typed object graphs with sharing and cycles, the handle-numbering writer and reader as functions, and the theorem that they undo each other |
| `JavaSerializer`, `JavaDeserializer` | the Java serializer with its static tables and buffers |
| `Messages`, `CppSerializer` | the message class, the C++ encoder and decoder, agreement of both sides, sizes |
| `TimeSlots`, `Bookings`, `SweepTheorems`, `Availabilities` | conflicts, a facility's calendar, the free-slot sweep and what it is worth |
| `Text`, `Searching`, `ServerModel` | numbers, splitting, searching; every operation of the server as a function of its state |
| `Services`, `Server`, `InitialState` | the server as objects updated in place, proved against `ServerModel` |
| `Runs`, `Effects`, `BookingInvariants`, `Identifiers`, `Repetition` | arbitrary runs, what every request may do, invariants, updates and repetitions |
| `Stopping`, `Promises` | which requests end the server; which promises of the interface description hold when |
| `AtMostOnce`, `AtLeastOnce`, `Network`, `NetworkTheorems`, `ClientProgram` | exactly-once execution, repeated execution, a network that loses, duplicates and reorders bytes, what a client may conclude, the client's retry loop |
| `RatingMeans` | the average as the mean of the executed ratings |
| `Monitors`, `NoticeScreens` | who is told about a change, and what they see |
| `ClientText`, `Users`, `ShiftBooking`, `Shifts` | moving a booking end to end; who may |
| `ResponseParser`, `AvailabilityDisplay`, `DisplayRuns` | showing availability end to end |
| `DetailsParser`, `ReplyTexts`, `Replies`, `Screens`, `FirstScreens` | the other replies: success iff carried out, and the user sees what the server holds |

Calls into code the repository does not contain appear as parameters: the clock, random
identifiers, texts of library exceptions and the result of parsing a decimal fraction are the
fields of `ServerModel.Env`; sockets and timeouts are the steps of `Network`; Java reflection
is a table of classes with ordered, typed fields.

## Where the code and its own documentation or comments differ

The model follows the code.

- `removeTimeSlot` returns null for an unknown booking and does not throw, so the "not found"
  branches of update and delete (Server/Server.java:586-592, 623-628) are never reached that
  way: deleting an unknown booking succeeds with ID `null` (`Promises.DeleteReply`), and
  updating one adds a booking (`Repetition.UpdateAllOrNothing`).
- API_Specification.md:57-65, 73 and 517 promise that a reply carries the code of its request.
  A refused update is answered with the code of WRITE (Server/Server.java:551-554), a
  registration of one part or with an unknown facility with that of READ
  (Server/Server.java:384-397), and code 6 and every unknown code with -1
  (Server/Server.java:424-427); `Promises.ReplyCodeIff` says that these are all.
- API_Specification.md:289 says that an update cannot change facility or day. The code checks
  neither (`Promises.UpdateInPlaceIff`).
- The update parser wants 8 parts; its error message speaks of 12
  (Server/utils/Parser.java:60-63, `Promises.UpdateParsesIff`).
- A notification is sent as raw text (Server/services/MonitorService.java:54-55), not as a
  response message; its text starts with the class name and two zeros, and the client's decoder
  never accepts it (`Network.CleanNeverDecodes`).
- READ is not guarded by an exception handler (Server/Server.java:234-313): null data, a list
  without parts or an unknown day name end the server (`Stopping.StopsIff`).
- Nothing checks that a slot ends after it starts, that minutes are below 60 or that times are
  not negative (Server/models/Availability.java:102-130). An empty slot makes the free-slot
  query offer booked time (`SweepTheorems.OffersHoldIff`), a booking from 9:00 to 9:75 can be
  moved by less than its duration (`TimeSlots.SmallMovesIff`), and one that ends at a
  time with a minus sign spoils the display (`DisplayRuns.StaysPlainIff`).
- The expiry test multiplies seconds by 1000 in 32 bits (Server/services/Monitor.java:61-64,
  `Monitors.ExpiryExact`).
- A request longer than 885 data bytes is cut by the server's buffer and answered with ID 0,
  which only a client's first call takes for its own reply (`Messages.RequestUnderstood`,
  `NetworkTheorems.FirstLongCallReturns`).

## Model

| member | source | states |
|---|---|---|
| `Primitives.SignedPut` | Server/utils/ByteBuffer.java:36-79 | big-endian writing of a signed number of any width loses nothing: reading the bytes back gives the number, on the whole two's complement range |
| `Primitives.TakePutInt` | Server/utils/ByteReader.java:37-54 | an int that was written is read back, and exactly its four bytes are consumed |
| `Primitives.TakePutLong` | Server/utils/ByteReader.java:59-83 | the same for longs, which also carry doubles as 64 opaque bits |
| `Primitives.TakePutString` | Server/utils/ByteReader.java:85-92 | a length-prefixed string is read back, and exactly its bytes are consumed |
| `Primitives.TakeExtends` | Client/src/ByteReader.cpp:53-123 | bytes that follow never change what a successful read returned |
| `JavaBuffers.ByteBuffer.WriteByte` | Server/utils/ByteBuffer.java:27-29 | appends one byte, or throws and leaves the contents of the full buffer as they were |
| `JavaBuffers.ByteBuffer.WriteInt` | Server/utils/ByteBuffer.java:36-53 | appends the four big-endian bytes, or throws exactly when they do not fit, having written the leading bytes that do |
| `JavaBuffers.ByteBuffer.WriteLong` | Server/utils/ByteBuffer.java:70-79 | the same with eight bytes |
| `JavaBuffers.ByteBuffer.WriteString` | Server/utils/ByteBuffer.java:86-92 | the same with length and bytes of a string |
| `JavaBuffers.ByteReader.ReadInt` | Server/utils/ByteReader.java:37-54 | combining shifted signed bytes gives the two's complement value; throws exactly when fewer than four bytes are left |
| `JavaBuffers.ByteReader.ReadLong` | Server/utils/ByteReader.java:59-70 | the same with eight bytes |
| `JavaBuffers.ByteReader.ReadString` | Server/utils/ByteReader.java:85-92 | the string of the announced length, or an exception for a negative length or too few bytes |
| `CppSerializer.GrowableBuffer.WriteInt` | Client/src/ByteBuffer.cpp:42-49 | appends the same four bytes as the Java writer |
| `CppSerializer.GrowableBuffer.WriteString` | Client/src/ByteBuffer.cpp:94-101 | appends the same bytes as the Java writer |
| `Parity.CppParityBit` | Client/src/Parity.cpp:12-25 | the shift-until-zero loop computes the number of one-bits modulo 2 |
| `Parity.JavaParityBit` | Server/utils/Parity.java:14-30 | the eight-step loop over signed bytes computes the same, sign bits included |
| `Parity.PassesIff` | Server/utils/Serializer.java:210-219 | a changed datagram passes the check iff its last byte is 0 or 1 and its total number of one-bits is even |
| `Parity.OddFlipsRejected` | Client/src/Serializer.cpp:140-148 | any odd number of flipped bits, in the parity byte too, is rejected |
| `ObjectGraph.ResolveTypeName` | Server/utils/Serializer.java:243-267 | every type of the domain, arrays of arrays included, is recovered from the name the writer gives it |
| `GraphRoundTrip.RoundObject` | Server/utils/Serializer.java:276-339 | reading what the writer wrote for an object gives the renamed object, leaves the rest of the input, completes every newly numbered object and touches no earlier one, whatever has been numbered before |
| `GraphRoundTrip.RoundArray` | Server/utils/Serializer.java:391-402 | the same for arrays, which are copied by content and never numbered |
| `GraphRoundTrip.RoundFields` | Server/utils/Serializer.java:324-336 | the fields of an object under construction are filled one after the other while nested reads add objects |
| `JavaCodec.GraphSurvives` | Server/utils/Serializer.java:23-402 | decoding the encoding of any legal object graph that fits the buffer gives an isomorphic graph: nulls, sharing and cycles intact; otherwise the encoding needs more than the buffer's 1024 bytes |
| `JavaCodec.ObjectExtends` | Server/utils/Serializer.java:276-402 | a successful read of a graph is not disturbed by bytes that follow |
| `JavaCodec.PrefixRejected` | Server/utils/Serializer.java:210-226 | every strict prefix of an encoding is rejected, whatever its last byte |
| `JavaSerializer.Serializer.Serialize` | Server/utils/Serializer.java:23-38 | the imperative serializer with its handle map, counter and buffer produces exactly the specified datagram, or throws exactly when it does not fit |
| `JavaSerializer.Serializer.SerializeObject` | Server/utils/Serializer.java:47-120 | one object: null marker, back reference or description and fields, handles updated, terminating by the number of objects not yet numbered |
| `JavaSerializer.Serializer.WriteValue` | Server/utils/Serializer.java:130-150 | one value according to its declared type |
| `JavaSerializer.Serializer.WriteArray` | Server/utils/Serializer.java:175-189 | minus one for null, otherwise length and elements |
| `JavaDeserializer.Deserializer.Deserialize` | Server/utils/Serializer.java:210-226 | the imperative deserializer accepts, rejects and builds what the specification says |
| `JavaDeserializer.Deserializer.DeserializeObject` | Server/utils/Serializer.java:276-339 | back references resolved through the handle table, new objects registered before their fields are read |
| `JavaDeserializer.Deserializer.ReadFieldValues` | Server/utils/Serializer.java:324-336 | each value is read, widened if the field is of a wider number type, checked against the field's type and stored, in the order of the description |
| `JavaDeserializer.Deserializer.ReadArray` | Server/utils/Serializer.java:391-402 | null for minus one, otherwise as many elements as announced |
| `Messages.SameBytes` | Client/src/Serializer.cpp:57-96 | C++ and Java encode every message whose data are not empty to identical bytes; empty data correspond to null |
| `Messages.CppSize` | Client/src/RequestMessage.cpp:57-71 | a message with n > 0 data bytes takes 115 + n bytes, an empty one 111 |
| `Messages.JavaFits` | Server/utils/ByteBuffer.java:17-29 | the Java writer succeeds iff there are at most 909 data bytes, and then the datagram fits the client's 1024-byte buffer |
| `Messages.JavaReadsCpp` | Server/utils/Serializer.java:210-402 | the Java decoder inverts the C++ encoder for all 32-bit fields and all data, with empty data read as null |
| `Messages.CppReadsJava` | Client/src/Serializer.cpp:133-221 | the C++ decoder inverts the Java encoder, with null read as empty |
| `Messages.RequestUnderstood` | Server/Server.java:83-89 | a request is understood iff its data have at most 885 bytes; a longer one is cut by the 1000-byte buffer and never taken for another request |
| `Messages.WireBegins` | Client/src/Serializer.cpp:57-83 | a request begins with the marker of a new object, the length 21 in four bytes, high byte first, and Server.RequestMessage |
| `Messages.CppPrefixRejected` | Server/utils/Serializer.java:210-226 | no strict prefix of a client's datagram is accepted |
| `CppSerializer.Encoder.Serialize` | Client/src/Serializer.cpp:34-46 | the C++ encoder with its handle table produces the specified datagram |
| `CppSerializer.Encoder.SerializeObject` | Client/src/Serializer.cpp:57-96 | null, back reference or the whole message, handles updated |
| `CppSerializer.Encoder.WriteFieldValues` | Client/src/RequestMessage.cpp:57-71 | the three field values in declaration order |
| `CppSerializer.Decoder.Deserialize` | Client/src/Serializer.cpp:133-160 | parity checked first, then the object; the reader is also given the parity byte |
| `CppSerializer.Decoder.DeserializeObject` | Client/src/Serializer.cpp:168-221 | null, back reference, or class name, description and fields, each of them checked |
| `CppSerializer.Decoder.DeserializeFields` | Client/src/RequestMessage.cpp:80-94 | the three fields, any null marker but 1 read as empty data |
| `TimeSlots.ConflictSymmetric` | Server/models/TimeSlot.java:61-69 | the conflict test is symmetric, for degenerate slots too |
| `TimeSlots.ConflictIsOverlap` | Server/models/TimeSlot.java:61-69 | for non-empty slots it is exactly having a time in common |
| `TimeSlots.SplitUnique` | Client/src/Client.cpp:173-181 | hour and minute have the sign of the total, with less than sixty minutes, and no other time of that total does |
| `TimeSlots.SplitOrder` | Client/src/Client.cpp:173-181 | splitting minutes by C++ truncated division is strictly order-preserving, below zero too |
| `TimeSlots.ConflictInMinutes` | Client/src/Client.cpp:173-181 | conflict of shifted slots is exactly overlap in minutes |
| `TimeSlots.SmallMovesIff` | Server/models/TimeSlot.java:61-69 | a slot of positive duration conflicts with every move of it by less than its duration iff the minute before its end and the minute after its start, split, lie before its end and after its start |
| `TimeSlots.SplitSlotsResist` | Client/src/Client.cpp:173-181 | slots the client has computed always do, below zero too |
| `TimeSlots.ProperMinutesResist` | Server/models/TimeSlot.java:61-69 | and so do slots with minutes from 0 to 59 |
| `Availabilities.Availability.constructor` | Server/models/Availability.java:26-36 | closed all week, no bookings |
| `Availabilities.Availability.SetAvaOfDay` | Server/models/Availability.java:68-74 | sets opening hours of that day and nothing else |
| `Availabilities.Availability.IsAvailable` | Server/models/Availability.java:102-115 | true iff the day is open and no booking of the day conflicts |
| `Availabilities.Availability.BookTimeSlot` | Server/models/Availability.java:124-130 | appends exactly one booking to the day's list |
| `Availabilities.Availability.RemoveTimeSlot` | Server/models/Availability.java:139-152 | removes the first booking with this ID and user and reports its ID, or changes nothing and reports null |
| `Availabilities.Availability.GetBookingInfo` | Server/models/Availability.java:160-169 | the first booking with this ID, whoever owns it |
| `Availabilities.Availability.GetAvailableTimeSlots` | Server/models/Availability.java:177-217 | the in-place sweep computes the specified list of gaps |
| `SweepTheorems.OfferedSlotsAreAvailable` | Server/models/Availability.java:185-216 | without assuming bookings inside opening hours: every gap returned is non-empty and accepted by isAvailable, so moving the cursor without a maximum is safe |
| `SweepTheorems.FreeSlotsExact` | Server/models/Availability.java:177-217 | for regular days the gaps are sorted, non-empty, maximal, and cover a time iff it is open and unbooked |
| `SweepTheorems.AvailableIffOffered` | Server/models/Availability.java:102-115 | a non-empty slot inside opening hours is available iff it lies within one returned gap |
| `SweepTheorems.MinutesConserved` | Server/models/Availability.java:177-217 | free minutes read from the sweep plus booked minutes equal opening minutes |
| `SweepTheorems.EmptySlotMisleads` | Server/models/Availability.java:102-130 | every slot that is empty or runs backwards is accepted next to a suitable booking, and then the sweep offers booked time |
| `SweepTheorems.OffersHoldIff` | Server/models/Availability.java:185-216 | booking a slot leaves every offer bookable, on every day of proper bookings where it is free, iff the slot is non-empty |
| `SweepTheorems.BackwardBookingMisleads` | Server/models/Availability.java:102-130 | an instance: after 9:00 to 12:00 and 13:00 to 10:00 the query offers 10:00 to 17:00 |
| `Effects.ExecuteApplies` | Server/Server.java:233-428 | every request changes the facilities by exactly one guarded effect: nothing, a booking of a free slot, a removal, a removal followed by such a booking, or one rating |
| `Runs.RunKeeps` | Server/Server.java:182-455 | an invariant every execution keeps holds after every run, under either invocation semantics |
| `BookingInvariants.ReachableSound` | Server/models/Availability.java:102-152 | in every reachable state, for any integer times: no two bookings of a day conflict, each sits in its own day's list on an open day |
| `BookingInvariants.ReachableOrderly` | Server/Server.java:457-593 | if all requested slots are non-empty (and in hours), so are all bookings in every reachable state, and opening hours never change |
| `BookingInvariants.ReachableOffers` | Server/models/Availability.java:185-216 | after any run of requests for non-empty slots every offered slot is non-empty and available |
| `BookingInvariants.ReachableConservation` | Server/models/Availability.java:177-217 | after any run of requests inside opening hours free and booked minutes add up to the opening minutes |
| `Identifiers.ReachableUnique` | Server/models/Availability.java:124-130 | given fresh identifiers no two bookings anywhere ever share a confirmation ID |
| `Identifiers.RemoveForgets` | Server/models/Availability.java:139-152 | once the booking with a unique ID is removed, that user has no booking with the ID |
| `Repetition.HasIff` | Server/models/Availability.java:139-152 | the search for an ID and user succeeds iff such a booking exists |
| `Repetition.UpdateAllOrNothing` | Server/Server.java:548-593 | a refused update changes nothing; an accepted one replaces exactly the caller's booking; with no such booking it adds exactly one |
| `Repetition.SmallMoveRefused` | Server/Server.java:548-556 | a booking whose inner minutes are in order cannot be moved on its own day by less than its duration: the update is refused and changes nothing |
| `Repetition.SmallMovesRefusedIff` | Server/Server.java:548-556 | the condition is exact: a booking alone on its day blocks every such move iff its inner minutes are in order |
| `Repetition.RepeatingBookingsIsHarmless` | Server/Server.java:457-630 | executing a booking or update request for a non-empty slot, or a delete request, any number of times leaves the facilities as executing it once does |
| `AtLeastOnce.CopiesAreHarmless` | Server/Server.java:63-66 | at least once: wherever in a run such a request is executed, further copies right behind it make no difference to the facilities, then or at the end of the run |
| `Repetition.SecondBookingIff` | Server/Server.java:479-495 | a second execution of an accepted booking request leaves the facilities alone iff its slot is non-empty |
| `Repetition.SecondUpdateIff` | Server/Server.java:548-565 | the same for an accepted update |
| `Repetition.RatingsPile` | Server/models/Rating.java:27-36 | each repetition of a valid rating is counted again |
| `Repetition.RegistrationsPile` | Server/services/MonitorService.java:32-34 | each repetition of a valid registration adds one more monitor |
| `RatingMeans.RatingAdded` | Server/models/Rating.java:27-36 | one more rating: the total grows by it, the number by one, and the average is right again |
| `RatingMeans.ReachableAverages` | Server/models/Rating.java:27-36 | in every reachable state the average of every facility times its number of ratings is its total |
| `RatingMeans.RunRatings` | Server/Server.java:645-664 | after any run, under either semantics, total and number of a facility have grown by exactly the ratings of it that were executed |
| `RatingMeans.AverageIsMean` | Server/models/Rating.java:27-36 | from a start without ratings the stored average is the mean of the executed ratings, zero if there are none |
| `RatingMeans.InitiallyUnrated` | Server/models/Rating.java:16-20 | the first state of the program has no ratings |
| `InitialState.InitiallyFine` | Server/Server.java:146-173 | the facilities created at the start meet every hypothesis made on the first state |
| `Services.RequestHistory.AddRequest` | Server/services/RequestHistory.java:26-28 | appends exactly one entry |
| `Services.RequestHistory.ContainsRequest` | Server/services/RequestHistory.java:36-45 | the first entry with the same request ID, address and port, if there is one |
| `Services.MonitorService.RegisterMonitor` | Server/services/MonitorService.java:32-34 | appends exactly one monitor |
| `Services.MonitorService.RemoveExpiredMonitors` | Server/services/MonitorService.java:84-86 | keeps exactly the unexpired monitors, in order, and says whether any were dropped |
| `Services.MonitorService.NotifyAll` | Server/services/MonitorService.java:52-77 | sends one datagram to each monitor of the facility, in order, each of them the printed message of code and ID 0 with the given text |
| `Server.RatingSum.AddRating` | Server/models/Rating.java:27-36 | total and number grow by the rating and by one, and the average times the number is the total |
| `Server.CreateFacilities` | Server/Server.java:146-173 | the three facilities with their opening hours, sharing nothing |
| `Server.Server.constructor` | Server/Server.java:146-173 | the server starts in the initial state with an empty history |
| `Server.Server.GetFacility` | Server/services/FacilityFactory.java:55-62 | the first facility of that name, or null |
| `Server.FormatDays` | Server/Server.java:674-693 | the loops over days and slots build the specified text |
| `Server.Server.FormatFacilityAvailability` | Server/Server.java:667-702 | the availability text of the facility, or the error text |
| `Server.Server.FindBooking` | Server/Server.java:272-296 | the text of the first facility that knows the booking |
| `Server.Server.Read` | Server/Server.java:234-313 | the reply to a READ; an exception exactly for null data, a list without parts and a word that is no day among the days of an availability query |
| `Promises.CodesAgree` | Server/Operation.java:7-50 | the client's codes are those of the operations they mean, the server takes a code for an operation iff it is its own, and there are codes for 0 to 6 alone |
| `Promises.ReplyCodeIff` | Server/Server.java:233-428 | the reply to an executed request that is no echo carries the request's code iff it is not a refused booking update, a registration of one part or with an unknown facility, or a request with an unknown code; in these cases the code is 1, 0 and -1 |
| `Promises.RefusedUpdateMiscoded` | Server/Server.java:549-556 | an instance: moving any booking of Weekday1 to a Sunday is answered with the code of WRITE |
| `Promises.DeleteReply` | Server/Server.java:596-630 | a deletion on a known facility always succeeds, reports the requested ID if the caller owns such a booking and null if not, and changes the facilities iff the caller does |
| `Promises.DeletesNothing` | Server/Server.java:616-622 | an instance: from the first state deleting any booking reports null |
| `Promises.UpdateParsesIff` | Server/utils/Parser.java:51-80 | an update is understood iff it has eight parts, the fourth of them a day and the last four numbers |
| `Promises.UpdateDayIff` | Server/utils/Parser.java:68-76 | the day of an update may be written in any mixture of cases, that of a booking in capitals alone |
| `Promises.WriteParsesIff` | Server/utils/Parser.java:20-24 | a booking is understood iff it has at least six parts, the second of them a day in capitals and the next four numbers, and then it means what they say |
| `Promises.UpdateInPlaceIff` | Server/Server.java:548-565 | an accepted update replaces the caller's booking in its facility and on its day iff the request names that facility and that day; with another facility a second booking is made and the first stays |
| `Promises.UpdateElsewhere` | Server/Server.java:548-565 | an instance: from the first state a Monday booking of Weekday1 updated to a Thursday on Weekday2 leaves the user with both |
| `Stopping.StopsIff` | Server/Server.java:234-313 | executing a request ends the server iff it is a READ with null data, a list without parts or a word that is no day among the days of an availability query, whatever the state |
| `Stopping.SurvivesIff` | Server/Server.java:86-139 | at most once: the server survives a run iff no first arrival of a key is a READ that ends it |
| `Stopping.SurvivesEveryRequestIff` | Server/Server.java:86-139 | at least once: iff no arrival at all is |
| `Server.Server.BookFacility` | Server/Server.java:457-513 | new state, reply and touched facility of a booking, in every branch, as specified; Screens.BookingScreen and Replies.SuccessIff say what the reply then tells |
| `Server.Server.UpdateBooking` | Server/Server.java:517-593 | the same of an update: check first, then removal, then booking; Screens.UpdateScreen says what the reply tells |
| `Server.Server.AddRating` | Server/Server.java:645-664 | the same of a rating; RatingMeans.RateScreen says what the reply tells |
| `Server.Server.DeleteBooking` | Server/Server.java:596-630 | the same of a deletion: only the endpoint that made the booking takes it out (Screens.CancelIsExact) |
| `Server.Server.RegisterMonitor` | Server/Server.java:378-422 | the same of a registration; Screens.MonitorScreen says what the reply tells |
| `Server.Server.Dispatch` | Server/Server.java:233-428 | the switch over the operation with its exception handlers |
| `Server.Server.Announce` | Server/Server.java:440-452 | expired monitors dropped and notices sent exactly when a facility was touched and the text is no error |
| `Server.Server.HandleRequest` | Server/Server.java:182-455 | one datagram: new state, history, reply and notices are those of the specification, or the server stops |
| `Server.Server.Serve` | Server/Server.java:86-128 | the main loop's body: cut datagram in, reply datagram out, which is the server step of the network model |
| `AtMostOnce.RunIsExactlyOnce` | Server/Server.java:210-230 | over every run from a fresh start facilities, ratings, monitors and history are what executing each distinct key once, in order of first arrival, makes of them |
| `AtMostOnce.RunHistory` | Server/Server.java:431-436 | history keys stay unique and no entry is ever changed or dropped |
| `AtMostOnce.RepliesAgree` | Server/Server.java:216-230 | every reply ever sent for a key is the same message, the one recorded |
| `AtMostOnce.EchoChangesNothing` | Server/Server.java:197-213 | echoes and datagrams that make no sense change nothing at all |
| `Network.CleanNeverDecodes` | Client/src/Serializer.cpp:140-148 | a notification's raw text, however much of it arrives, is never accepted as a reply |
| `Network.AvailabilityClean` | Server/services/MonitorService.java:54-55 | no byte of a notification is 0 or 1 |
| `NetworkTheorems.EvolveInv` | Client/src/Client.cpp:371-463 | every step of clients, network and server, started with either semantics, keeps the invariant: every datagram under way and every finished call has an honest explanation |
| `NetworkTheorems.CallsAreHonest` | Client/src/Client.cpp:445-463 | for every run, under either semantics: an echo of at most 885 bytes that returned gave back its own data; a call that is no echo and returned was executed, if it has at most 885 data bytes, and got the reply of an execution of exactly this call; a longer one was never executed and can return only if it is the client's first; no call returns an empty text or ends in a null dereference; and at most once, no such call, returned or given up, has been executed twice |
| `NetworkTheorems.FirstLongCallReturns` | Server/Server.java:202-207 | the exception is real: from the first state of the program a client's first call with more than 885 data bytes can return the error reply, with nothing executed |
| `NetworkTheorems.AtMostOneExecution` | Server/Server.java:216-230 | with unique history keys a call has been executed at most once |
| `NetworkTheorems.ServerRuns` | Server/Server.java:86-139 | under either semantics the server of the network model is the server of a run over what it was served |
| `NetworkTheorems.NetworkIsExactlyOnce` | Server/Server.java:210-230 | at most once: whatever the network does, the server ends up as the exactly-once executor over what it was served |
| `NetworkTheorems.ReplyDecodes` | Server/Server.java:114-121 | the client reads every reply the server manages to encode |
| `NetworkTheorems.ProgramStarts` | Server/Server.java:146-173 | the program as it starts is a first state of the network model |
| `ClientProgram.ClientObject.SendRequest` | Client/src/Client.cpp:371-389 | the ID moves on only for a first attempt; the same bytes are sent each time |
| `ClientProgram.ClientObject.ReceiveResponse` | Client/src/Client.cpp:401-433 | empty text for a timeout, an exception or another request's reply; a null object is dereferenced |
| `ClientProgram.ClientObject.SendWithRetry` | Client/src/Client.cpp:445-463 | result and datagrams sent for every sequence of answers; the ID moves on by exactly one per call |
| `ClientProgram.CallIsLoop` | Client/src/Client.cpp:445-463 | the protocol's steps for one call end as the client's loop ends and put one copy of the request on the network per attempt |
| `ClientProgram.FirstAnswerDecides` | Client/src/Client.cpp:445-463 | the first attempt that gets a usable answer or a null object ends the call, whatever was to come |
| `ClientProgram.FiveAttempts` | Client/src/Client.cpp:445-463 | the client gives up after five attempts iff none of them gets an answer |
| `ClientProgram.GivingUpIsShown` | Client/src/Client.cpp:462-462 | giving up is shown as the error Request failed after 5 attempts. by every parser |
| `Monitors.ExpiryExact` | Server/services/Monitor.java:61-64 | the 32-bit product judges expiry correctly at all times iff the interval is at most 2147483 seconds in size |
| `Monitors.LongIntervalExpiresAtOnce` | Server/services/Monitor.java:61-64 | an interval of 2147484 seconds has expired when it begins |
| `Monitors.DroppingIsSafe` | Server/services/MonitorService.java:84-86 | dropping what has expired changes nothing about who is unexpired later |
| `Monitors.OnlyTheNameMisleads` | Server/Server.java:445-448 | the availability of a known facility is taken for an error text iff the facility's name contains the marker |
| `Monitors.ExecuteMonitors` | Server/Server.java:378-422 | what each request adds to the monitors and which facility it touches; ratings touch none |
| `Monitors.RunMonitors` | Server/services/MonitorService.java:84-86 | with a monotone clock the server still serves exactly the unexpired among all monitors ever registered |
| `Monitors.NoticesExact` | Server/Server.java:440-452 | after any run the next datagram causes notices exactly if it is executed and touches a known facility, and then one to each registration of that facility whose interval has not run out, each of them the literal prefix followed by the availability after the change |
| `Monitors.NoticeCarries` | Server/services/MonitorService.java:54-55 | a notification is twenty characters followed by the whole text |
| `NoticeScreens.DeliveredIff` | Client/src/Client.cpp:586-597 | the client gets the whole notification iff it has at most 1024 bytes |
| `NoticeScreens.NoticeScreen` | Client/src/UserInterface.cpp:399-411 | a monitoring client that gets a notification of up to 1024 bytes shows exactly what is free after the change, under the display's condition and no other |
| `Text.ParsePrint` | Server/utils/Parser.java:70-74 | Java reads back every 32-bit number C++ prints |
| `Text.ParseIntIff` | Server/utils/Parser.java:70-74 | a text is a number iff it is digits, with or without a sign, in the 32-bit range |
| `Text.LeadingZero` | Server/utils/Parser.java:70-74 | leading zeros do not count |
| `Text.JavaSplitJoin` | Server/utils/Parser.java:51-60 | Java's split undoes the client's comma-separated assembly |
| `ClientText.ReadBackIff` | Client/src/Client.cpp:167-171 | a time printed by the server is read back by the client iff hour and minute each take two characters (-9 to 99) |
| `ClientText.ExtractFinds` | Client/src/Client.cpp:475-563 | the prefix search finds a field at the beginning of a line unless an earlier line contains the prefix, and stops at the end of the line |
| `ShiftBooking.ClientReads` | Client/src/Client.cpp:475-563 | from the server's text about a booking the four searches extract exactly the four fields |
| `ShiftBooking.ReadsSlotIff` | Client/src/Client.cpp:161-171 | start and end are read back iff each number takes two characters |
| `ShiftBooking.SplitReadable` | Client/src/Client.cpp:173-181 | totals of 0 to 5999 minutes stay readable |
| `ShiftBooking.LateHoursMisread` | Client/src/Client.cpp:167-171 | one hundred hours are read as ten |
| `ShiftBooking.PadReads` | Server/models/TimeSlot.java:77-107 | whatever the server prints as part of a time reads back as the number and takes at least two characters |
| `ShiftBooking.ServerParses` | Server/utils/Parser.java:51-80 | the server's parser recovers every field of the update the client composed |
| `ShiftBooking.BookedAsTyped` | Client/src/Client.cpp:104-123 | a booking request composed from four-digit times means the slot typed in |
| `ShiftBooking.AnswerFinds` | Server/Server.java:272-296 | with unique IDs a query by ID answers with that booking |
| `Shifts.SeenIff` | Client/src/Client.cpp:161-171 | the client believes in the stored slot iff each of its numbers takes two characters |
| `Shifts.ShiftAsRead` | Client/src/Client.cpp:156-198 | one move of any booking: the client throws iff it cannot read the times; otherwise the move is accepted iff what the client read, shifted, is available, and then exactly this booking is replaced by that slot, under the ID the client reads from the reply |
| `Shifts.ShiftIsExact` | Client/src/Client.cpp:156-198 | one move from end to end: accepted iff the shifted slot is available, and then exactly this booking is replaced by one with both ends later by the offset |
| `Shifts.LongMinutesMove` | Server/Server.java:479-495 | nothing checks minutes: 9:00 to 9:75 can be booked from the first state, and moving this booking of 75 minutes by 70 is accepted |
| `Shifts.OthersKeep` | Server/Server.java:561-565 | whatever any endpoint requests other than the one that made the booking, and whatever that one requests without naming it, the booking stays as it is |
| `Users.UserInfoInjective` | Server/Server.java:561-562 | no two endpoints are the same user |
| `Users.UserReads` | Server/Server.java:561-562 | the user text is the address, a colon and the port, which is read back |
| `Shifts.BookingSurvives` | Server/models/Availability.java:139-152 | a booking survives every run, under either semantics, in which its own endpoint does not name it, whatever all others send |
| `Shifts.ShiftsAddUp` | Client/src/Client.cpp:156-198 | any number of moves, each naming the booking by the ID read from the reply to the last accepted one, refused ones and other requests that do not name it in between: unless one of these is a READ that ends the server, the booking is on its day under the ID its owner knows, both ends later by the sum of the accepted offsets |
| `Shifts.ShiftsAddUpInRange` | Client/src/Client.cpp:156-198 | the same under a condition known beforehand: start and end stay within 0 to 5999 minutes by the sum of the sizes of all offsets |
| `ResponseParser.Stream.GetLine` | Client/src/ResponseParser.cpp:119-147 | one piece up to the delimiter taken off the stream, or failure on an empty stream |
| `ResponseParser.IsErrorResponse` | Client/src/ResponseParser.cpp:589-598 | whether the first line, which is consumed, begins with the error status |
| `ResponseParser.ParseTimeslots` | Client/src/ResponseParser.cpp:137-160 | the slots of one line, dashes replaced, empty pieces skipped, trailing separator removed |
| `ResponseParser.ReadLines` | Client/src/ResponseParser.cpp:118-166 | the loop over lines fills header and map as specified |
| `ResponseParser.ParseQueryAvailabilityResponse` | Client/src/ResponseParser.cpp:80-199 | the stream-consuming parser computes the specified lines in every branch |
| `DetailsParser.ReadFields` | Client/src/ResponseParser.cpp:244-276 | the loop over labelled lines finds for each label what the last line with it holds |
| `DetailsParser.ParseQueryBookingResponse` | Client/src/ResponseParser.cpp:228-290 | the lines shown about a booking, or the error |
| `DetailsParser.ParseUpdateBookingResponse` | Client/src/ResponseParser.cpp:299-363 | the lines shown about an updated booking, or the error |
| `DetailsParser.ParseDeleteBookingResponse` | Client/src/ResponseParser.cpp:373-410 | the lines shown about a deletion, or the error |
| `DetailsParser.ParseMonitorAvailabilityResponse` | Client/src/ResponseParser.cpp:423-460 | the lines shown about a registration, or the error |
| `DetailsParser.ParseRateFacilityResponse` | Client/src/ResponseParser.cpp:473-515 | the lines shown about a rating, or the error |
| `DetailsParser.ParseQueryRatingResponse` | Client/src/ResponseParser.cpp:517-553 | the lines shown about an average, or the error |
| `DetailsParser.ParseQueryFacilityNamesResponse` | Client/src/ResponseParser.cpp:21-64 | the names in order, empty ones skipped, or the error |
| `AvailabilityDisplay.DashIff` | Client/src/ResponseParser.cpp:146-150 | the right dash becomes "to" iff the slot's start is printed without a minus sign |
| `AvailabilityDisplay.DisplayExact` | Client/src/ResponseParser.cpp:80-199 | parsing the server's availability text gives each day's free slots in order and the days in week order, with "Closed" for asked days that have none, iff no slot on a shown day starts with a minus sign |
| `AvailabilityDisplay.QueryDisplays` | Client/src/Client.cpp:83-90 | the whole way: asking for a facility on some days, or on all, shows exactly what is free on them, under the same condition and no other |
| `DisplayRuns.DisplayAlwaysRight` | Client/src/Client.cpp:83-90 | after any run of requests for slots that end at times without a minus sign, under either semantics, the query needs no condition on the answer: it always shows exactly what is free |
| `DisplayRuns.InitiallyPlain` | Server/Server.java:146-173 | the first state of the program qualifies |
| `DisplayRuns.StaysPlainIff` | Server/models/Availability.java:124-130 | the hypothesis on a request is exact: booking a slot keeps the display right on every such calendar where it is free iff the slot ends at such a time |
| `DisplayRuns.NegativeTimesShownWrong` | Server/Server.java:479-495 | from the first state a booking from -2:00 to -1:00 is accepted, and then the query shows something else than what is free |
| `AvailabilityDisplay.ErrorShown` | Client/src/ResponseParser.cpp:103-113 | any error text of the server is shown as its message, up to the first line end |
| `AvailabilityDisplay.UnknownShown` | Server/Server.java:698-702 | asking for the availability of an unknown facility shows Facility not found |
| `ReplyTexts.ReportRead` | Client/src/ResponseParser.cpp:244-276 | from any report of labelled lines whose labels begin differently the client reads back every value, with or without a final line end |
| `ReplyTexts.ErrorIsShown` | Client/src/ResponseParser.cpp:233-243 | an error text is shown as its message by every parser |
| `Replies.SuccessIff` | Server/Server.java:233-428 | every reply begins with one of the two statuses, with success iff the server could do what was asked (a known facility, a held booking, an available slot, a valid rating or registration), and after a failure nothing has changed |
| `Replies.AnswerIff` | Server/Server.java:272-296 | a query by ID answers with a held booking of that ID, or that there is none, iff there is none |
| `Screens.BookingScreen` | Server/Server.java:457-513 | after a booking request the user sees ID, user, facility, day and times of the booking the server then holds, or why it was refused, with nothing changed |
| `Screens.UpdateScreen` | Server/Server.java:517-593 | after an update the user sees the booking then held under its new ID; the reply carries the old ID too, which is the user's no longer, or null if there was none; or why it was refused, with nothing changed |
| `Screens.QueryScreen` | Client/src/Client.cpp:134-141 | asking for an ID shows the booking held under it, or that there is none |
| `Screens.OwnerOnly` | Server/models/Availability.java:139-152 | a user owns a held booking iff it is the endpoint that made it |
| `Screens.CancelIsExact` | Client/src/Client.cpp:210-220 | a deletion from end to end: the endpoint that made the booking takes exactly it out and sees its ID; for any other nothing changes, and it sees null |
| `Screens.MonitorScreen` | Client/src/Client.cpp:236-247 | registering adds exactly one monitor with the name, time and interval and shows facility and duration; for an unknown facility it changes nothing and says so |
| `Screens.NamesScreen` | Client/src/Client.cpp:64-71 | asking for the facilities lists all of them in the server's order |
| `Screens.UnknownKindScreen` | Server/Server.java:309-427 | a request whose kind or code is unknown, and a query or registration of one part, are answered with the reason, and nothing changes |
| `FirstScreens.FirstNames` | Server/Server.java:146-173 | from the first state the list is Weekday1, Weekday2, Weekends |
| `FirstScreens.FirstHours` | Server/Server.java:146-173 | from the first state the three facilities are shown as open from 0800 to 1700, from 0830 to 2330 and from 0900 to 1800 on their days |
| `RatingMeans.RateScreen` | Client/src/Client.cpp:271-278 | a rating that is a number is added to the facility it names, nothing else changes, and the client shows it |
| `RatingMeans.RatingScreen` | Client/src/Client.cpp:289-296 | after any run from a start without ratings, asking for the rating of a facility shows the mean of the executed ratings of it, to one decimal |
| `RatingMeans.UnknownRatingScreen` | Server/Server.java:298-308 | asking for the rating of an unknown facility says so |
| `RatingMeans.TenthsRounds` | Server/Server.java:632-642 | the decimal shown is within half a tenth of the number, halves away from zero |

## Left out

- Character sets: a character stands for one byte; characters of 256 and more are encoded as `?`, and only ASCII letters are changed to upper case.
- Internet addresses: an address is its printed form, and two endpoints are equal when that and the port are.
- Floating point: doubles on the wire are opaque 64 bits; ratings are reals, so infinities, NaN and rounding are not modelled.
- Field types boolean, byte, float, short and char: the serializer writes no boolean and reads no byte, and has no case for the others.
- Type names of an incoming field description outside the domain, such as `float`: rejected in the model, where the decoder reads a null for them.
- Memory: a length that is announced but cannot be allocated is an exception the request handler answers; the error that ends the server instead is not modelled.
- Component types of empty arrays: an empty array fits every array field.
- Reflection: fields are read and written in declaration order, constructors leave defaults, static, transient and inherited fields do not occur, an object's run-time class is the class its table entry names, and equality of objects is identity.
- Strings, arrays and `void` in the place of an object: the class names the decoder would load for them are rejected in the model.
- The library sort: modelled as a stable insertion sort by start time, not as the library's algorithm.
- Availability.facilityName: never set in the program, so bookings carry no facility name.
- Server.FacilityObject.constructor: takes the calendar when the facility is made, where the program replaces the default one afterwards.
- Sockets, threads, logging and the processing delay: a receive, a send and a timeout are steps; a failing send is a lost datagram.
- The drop simulation of the main loop: it is one kind of loss.
- Listening for notifications after a registration: notifications are datagrams that may be lost; the listening loop itself has no state.
- Counters beyond 32 bits: a client's request IDs, the number of ratings and the number of objects in one datagram.
- A signed overflow in the client's minute arithmetic: undefined in C++, excluded by a hypothesis.
- ClientProgram.ClientObject.SendWithRetry: what each attempt receives is a parameter, None standing for a timeout.
- RequestHistory.containsAndReplace, updateRequestInfo and removeMonitor: never called.
- DetailsParser.ReadFields: the loop over labelled lines, which six parsers of the program repeat, is one method over the list of labels here.
- Line ends in identifiers, addresses and facility names: excluded by hypotheses where the client reads a reply line by line; the program makes none.
- Menus, prompts, input checks, the boxes around results and the echo's one line of display: nothing depends on them.
